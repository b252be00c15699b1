/**
 * Records as the ensemble-record storage client sees them, the one-row
 * table a record is written as, and the decoder `_response2record`
 * (ert3/storage/_storage.py). The record classes themselves live in
 * ert3/data, which is not part of this model: a record is modelled as the
 * tagged variant the storage code relies on.
 */
module Records {
  import opened Wrappers
  import Text

  /** A double; nothing is computed on it, it is only stored, compared and copied. */
  datatype Float = Float(bits: bv64)

  /** ert3.data.RecordType. */
  datatype RecordKind = ListFloat | MappingIntFloat | MappingStrFloat

  /** The exceptions the storage client lets escape. */
  datatype Error =
    | ElementExistsError        // ert3.exceptions.ElementExistsError
    | NonExistantExperiment     // ert3.exceptions.NonExistantExperiment
    | ElementMissingError       // ert3.exceptions.ElementMissingError
    | StorageError(status: int) // ert3.exceptions.StorageError, raised with the response
    | ValueError(message: string)
    | IndexError
    | KeyError
    | BadResponseBody           // a response body read as JSON of the wrong shape

  const InconsistentRecordType := "Inconsistent record type"
  const InvalidIntLabel := "invalid literal for int()"

  predicate Distinct<K(==)>(s: seq<K>) {
    forall i, j :: 0 <= i < j < |s| ==> s[i] != s[j]
  }

  /**
   * A Python dict from K to float: its keys in insertion order and the
   * values aligned with them.
   */
  datatype Dict<K> = Dict(keys: seq<K>, values: seq<Float>)

  predicate ValidDict<K(==)>(d: Dict<K>) {
    |d.keys| == |d.values| && Distinct(d.keys)
  }

  function IndexOf<K(==)>(s: seq<K>, k: K): (r: Option<nat>)
    ensures r.Some? ==> r.value < |s| && s[r.value] == k
    ensures r.None? ==> k !in s
  {
    if |s| == 0 then None
    else if s[0] == k then Some(0)
    else match IndexOf(s[1..], k)
      case None => None
      case Some(i) => Some(i + 1)
  }

  /** d[k] = v: an existing key keeps its place and takes the new value, a new key goes last. */
  function DictSet<K(==)>(d: Dict<K>, k: K, v: Float): (r: Dict<K>)
    requires ValidDict(d)
    ensures ValidDict(r)
    ensures k in d.keys ==> r.keys == d.keys
    ensures k !in d.keys ==> r == Dict(d.keys + [k], d.values + [v])
    ensures forall i :: 0 <= i < |r.keys| && r.keys[i] == k ==> r.values[i] == v
    ensures k in d.keys ==> forall i :: 0 <= i < |d.keys| && d.keys[i] != k ==> r.values[i] == d.values[i]
  {
    match IndexOf(d.keys, k)
    case Some(i) => Dict(d.keys, d.values[i := v])
    case None => Dict(d.keys + [k], d.values + [v])
  }

  /** The dict {k: v for k, v in zip(keys, values)} after its first n pairs. */
  function DictOfZip<K(==)>(keys: seq<K>, values: seq<Float>, n: nat): (r: Dict<K>)
    requires n <= |keys| && n <= |values|
    ensures ValidDict(r)
  {
    if n == 0 then Dict([], []) else DictSet(DictOfZip(keys, values, n - 1), keys[n - 1], values[n - 1])
  }

  function Min(a: nat, b: nat): nat { if a < b then a else b }

  /** {k: v for k, v in zip(keys, values)}: zip stops at the shorter input. */
  function DictFromPairs<K(==)>(keys: seq<K>, values: seq<Float>): Dict<K>
  {
    DictOfZip(keys, values, Min(|keys|, |values|))
  }

  /** With distinct keys the comprehension keeps every pair, in order. */
  lemma {:induction false} DictOfDistinctZip<K>(keys: seq<K>, values: seq<Float>, n: nat)
    requires n <= |keys| && n <= |values| && Distinct(keys)
    ensures DictOfZip(keys, values, n) == Dict(keys[..n], values[..n])
  {
    if n > 0 {
      DictOfDistinctZip(keys, values, n - 1);
      assert keys[n - 1] !in keys[..n - 1];
      assert keys[..n - 1] + [keys[n - 1]] == keys[..n];
      assert values[..n - 1] + [values[n - 1]] == values[..n];
    }
  }

  lemma DictFromDistinctPairs<K>(keys: seq<K>, values: seq<Float>)
    requires |keys| == |values| && Distinct(keys)
    ensures DictFromPairs(keys, values) == Dict(keys, values)
  {
    DictOfDistinctZip(keys, values, |keys|);
    assert keys[..|keys|] == keys && values[..|values|] == values;
  }

  /** One realization's data (ert3.data.Record), tagged by its index kind. */
  datatype Record =
    | FloatList(data: seq<Float>)
    | IntFloatMapping(idata: Dict<int>)
    | StrFloatMapping(sdata: Dict<string>)

  function Kind(r: Record): RecordKind {
    match r
    case FloatList(_) => ListFloat
    case IntFloatMapping(_) => MappingIntFloat
    case StrFloatMapping(_) => MappingStrFloat
  }

  /** A record as Python can build it: a mapping is a dict, so its keys are distinct. */
  predicate WellFormed(r: Record) {
    match r
    case FloatList(_) => true
    case IntFloatMapping(d) => ValidDict(d)
    case StrFloatMapping(d) => ValidDict(d)
  }

  /** record.index for a list: 0, 1, ..., n-1. */
  function Range(n: nat): (r: seq<int>)
    ensures |r| == n && forall i :: 0 <= i < n ==> r[i] == i
  {
    if n == 0 then [] else Range(n - 1) + [n - 1]
  }

  function IntLabels(ks: seq<int>): (r: seq<string>)
    ensures |r| == |ks| && forall i :: 0 <= i < |ks| ==> r[i] == Text.IntToString(ks[i])
  {
    if |ks| == 0 then [] else IntLabels(ks[..|ks| - 1]) + [Text.IntToString(ks[|ks| - 1])]
  }

  /** The CSV header: record.index written as text. */
  function Labels(r: Record): seq<string> {
    match r
    case FloatList(data) => IntLabels(Range(|data|))
    case IntFloatMapping(d) => IntLabels(d.keys)
    case StrFloatMapping(d) => d.keys
  }

  /** The values of record.data in the order of record.index. */
  function Values(r: Record): seq<Float> {
    match r
    case FloatList(data) => data
    case IntFloatMapping(d) => d.values
    case StrFloatMapping(d) => d.values
  }

  /**
   * A CSV table with one data row: the header labels, the row's index label
   * and its cells. Cells are read back exactly (pandas' round_trip precision).
   */
  datatype Table = Table(columns: seq<string>, rowLabel: int, row: seq<Float>)

  /** pd.DataFrame([record.data], columns=record.index, index=[idx]).to_csv() */
  function Encode(r: Record, idx: int): (t: Table)
    ensures t.rowLabel == idx && t.row == Values(r)
    ensures WellFormed(r) ==> |t.columns| == |t.row|
  {
    Table(Labels(r), idx, Values(r))
  }

  /** int(e) for every header label; None as soon as one label is not an int. */
  function ParseLabels(cols: seq<string>): (r: Option<seq<int>>)
    ensures r.Some? ==> |r.value| == |cols|
    ensures r.Some? <==> forall i :: 0 <= i < |cols| ==> Text.ParseInt(cols[i]).Some?
    ensures r.Some? ==> forall i :: 0 <= i < |cols| ==> Text.ParseInt(cols[i]) == Some(r.value[i])
  {
    if |cols| == 0 then Some([])
    else match (ParseLabels(cols[..|cols| - 1]), Text.ParseInt(cols[|cols| - 1]))
      case (Some(ks), Some(k)) => Some(ks + [k])
      case _ => None
  }

  /**
   * _response2record: rebuild the record the metadata's kind names from
   * the row of `realization`. The row is looked up once per column, so a
   * missing row raises KeyError only when there is a column; for an int
   * index every label is parsed first, so a label that is not an int raises
   * ValueError even when the row is missing. A header and row of different
   * lengths cannot come out of pandas' CSV reader; here it is a bad body.
   */
  function Decode(t: Table, kind: RecordKind, realization: int): (r: Result<Record, Error>)
    ensures r.Success? ==> Kind(r.value) == kind && WellFormed(r.value) && (|t.columns| > 0 ==> t.rowLabel == realization)
    ensures r == Failure(BadResponseBody) <==> |t.columns| != |t.row|
    ensures r == Failure(ValueError(InvalidIntLabel)) <==>
      |t.columns| == |t.row| && kind == MappingIntFloat && exists i :: 0 <= i < |t.columns| && Text.ParseInt(t.columns[i]).None?
    ensures r == Failure(KeyError) <==>
      |t.columns| == |t.row| && |t.columns| > 0 && t.rowLabel != realization &&
      (kind == MappingIntFloat ==> forall i :: 0 <= i < |t.columns| ==> Text.ParseInt(t.columns[i]).Some?)
    ensures r.Failure? ==> r.error in {BadResponseBody, ValueError(InvalidIntLabel), KeyError}
    ensures r.Success? && kind == ListFloat ==> r.value == FloatList(t.row)
    ensures r.Success? && kind == MappingIntFloat ==>
      ParseLabels(t.columns).Some? && r.value == IntFloatMapping(DictFromPairs(ParseLabels(t.columns).value, t.row))
    ensures r.Success? && kind == MappingStrFloat ==> r.value == StrFloatMapping(DictFromPairs(t.columns, t.row))
  {
    if |t.columns| != |t.row| then Failure(BadResponseBody)
    else
      var missing := |t.columns| > 0 && t.rowLabel != realization;
      match kind
      case ListFloat => if missing then Failure(KeyError) else Success(FloatList(t.row))
      case MappingIntFloat =>
        (match ParseLabels(t.columns)
         case None => Failure(ValueError(InvalidIntLabel))
         case Some(ks) => if missing then Failure(KeyError) else Success(IntFloatMapping(DictFromPairs(ks, t.row))))
      case MappingStrFloat => if missing then Failure(KeyError) else Success(StrFloatMapping(DictFromPairs(t.columns, t.row)))
  }

  lemma {:induction false} ParseIntLabels(ks: seq<int>)
    ensures ParseLabels(IntLabels(ks)) == Some(ks)
  {
    var r := ParseLabels(IntLabels(ks));
    forall i | 0 <= i < |ks| ensures Text.ParseInt(IntLabels(ks)[i]) == Some(ks[i]) {
      Text.IntToStringRoundTrip(ks[i]);
    }
    assert r.Some?;
    assert r.value == ks;
  }

  /** Decoding a record's own encoding, with its own kind and row, gives the record back. */
  lemma EncodeDecodeRoundTrip(r: Record, idx: int)
    requires WellFormed(r)
    ensures Decode(Encode(r, idx), Kind(r), idx) == Success(r)
  {
    match r
    case FloatList(_) =>
    case IntFloatMapping(d) =>
      ParseIntLabels(d.keys);
      DictFromDistinctPairs(d.keys, d.values);
    case StrFloatMapping(d) =>
      DictFromDistinctPairs(d.keys, d.values);
  }

  /** Every record of the ensemble has kind k. */
  predicate Uniform(records: seq<Record>, k: RecordKind) {
    forall i :: 0 <= i < |records| ==> Kind(records[i]) == k
  }

  /**
   * _get_record_type: the kind of records[0] (IndexError on an empty
   * ensemble), or ValueError when any record's kind differs from it.
   */
  function RecordTypeOf(records: seq<Record>): (r: Result<RecordKind, Error>)
    ensures r.Success? <==> |records| > 0 && Uniform(records, Kind(records[0]))
    ensures r.Success? ==> r.value == Kind(records[0])
    ensures r.Success? ==> Uniform(records, r.value)
    ensures |records| == 0 ==> r == Failure(IndexError)
    ensures |records| > 0 && !Uniform(records, Kind(records[0])) ==> r == Failure(ValueError(InconsistentRecordType))
  {
    if |records| == 0 then Failure(IndexError)
    else if Uniform(records, Kind(records[0])) then Success(Kind(records[0]))
    else Failure(ValueError(InconsistentRecordType))
  }

  /** The check loop of _get_record_type. */
  method GetRecordType(records: seq<Record>) returns (r: Result<RecordKind, Error>)
    ensures r == RecordTypeOf(records)
  {
    if |records| == 0 {
      return Failure(IndexError);
    }
    var recordType := Kind(records[0]);
    for i := 0 to |records|
      invariant Uniform(records[..i], recordType)
    {
      if Kind(records[i]) != recordType {
        return Failure(ValueError(InconsistentRecordType));
      }
    }
    assert records[..|records|] == records;
    return Success(recordType);
  }
}
