/**
 * Distributions of ert3 parameters (ert3/stats/_stats.py): the rule that
 * exactly one of a size and an index is given, the index derived from
 * either, and the conversion of a drawn array into a record. The scipy
 * samplers and quantile functions are parameters of the model.
 */
module Stats {
  import opened Wrappers
  import opened Records

  const NeitherMessage := "Cannot create distribution with neither size nor index"
  const BothMessage := "Cannot create distribution with both size and index"
  const NegativeDimensionsMessage := "negative dimensions are not allowed"

  /** ert3.data.RecordIndex: a tuple of ints or a tuple of strings. */
  datatype RecordIndex = IntIndex(ints: seq<int>) | StrIndex(strs: seq<string>)

  function IndexLength(ix: RecordIndex): nat {
    match ix
    case IntIndex(ks) => |ks|
    case StrIndex(ks) => |ks|
  }

  predicate DistinctIndex(ix: RecordIndex) {
    match ix
    case IntIndex(ks) => Distinct(ks)
    case StrIndex(ks) => Distinct(ks)
  }

  /** tuple(range(n)): empty when n <= 0. */
  function RangeOf(n: int): (r: seq<int>)
    ensures |r| == (if n > 0 then n else 0)
    ensures forall i :: 0 <= i < |r| ==> r[i] == i
  {
    if n <= 0 then [] else Range(n)
  }

  /** A distribution: its size, whether records are arrays, its index, and the raw sampler and quantile function. */
  datatype Distribution = Distribution(
    size: int,
    asArray: bool,
    index: RecordIndex,
    rawRvs: int -> seq<Float>,
    rawPpf: seq<Float> -> seq<Float>)

  /** Distribution.__init__ */
  function NewDistribution(size: Option<int>, index: Option<RecordIndex>,
                           rvs: int -> seq<Float>, ppf: seq<Float> -> seq<Float>): (r: Result<Distribution, Error>)
    ensures r.Success? <==> (size.Some? != index.Some?)
    ensures size.None? && index.None? ==> r == Failure(ValueError(NeitherMessage))
    ensures size.Some? && index.Some? ==> r == Failure(ValueError(BothMessage))
    ensures r.Success? ==> r.value.rawRvs == rvs && r.value.rawPpf == ppf
    ensures r.Success? && size.Some? ==>
      r.value.size == size.value && r.value.asArray && r.value.index == IntIndex(RangeOf(size.value))
    ensures r.Success? && index.Some? ==>
      r.value.size == IndexLength(index.value) && !r.value.asArray && r.value.index == index.value
    ensures r.Success? ==> Consistent(r.value)
  {
    if size.None? && index.None? then Failure(ValueError(NeitherMessage))
    else if size.Some? && index.Some? then Failure(ValueError(BothMessage))
    else if size.Some? then Success(Distribution(size.value, true, IntIndex(RangeOf(size.value)), rvs, ppf))
    else Success(Distribution(IndexLength(index.value), false, index.value, rvs, ppf))
  }

  /** The size, mode and index Distribution.__init__ derives from whichever of size and index is given. */
  predicate DerivedFrom(d: Distribution, size: Option<int>, index: Option<RecordIndex>) {
    (size.Some? ==> d.size == size.value && d.asArray && d.index == IntIndex(RangeOf(size.value))) &&
    (index.Some? ==> d.size == IndexLength(index.value) && !d.asArray && d.index == index.value)
  }

  /** What Distribution.__init__ establishes between the size, the mode and the index. */
  predicate Consistent(d: Distribution) {
    if d.asArray then d.index == IntIndex(RangeOf(d.size)) else d.size == IndexLength(d.index)
  }

  /**
   * Distribution.index: for a distribution as __init__ leaves it, one entry
   * per value of a non-negative size, and 0 .. size - 1 in array mode.
   */
  function Index(d: Distribution): (r: RecordIndex)
    ensures Consistent(d) && d.size >= 0 ==> IndexLength(r) == d.size
    ensures Consistent(d) && d.asArray ==> r.IntIndex? && forall i :: 0 <= i < |r.ints| ==> r.ints[i] == i
  {
    d.index
  }

  /** Distribution._to_record: the array itself, or {index[i]: x[i]} over zip(index, x). */
  function ToRecord(d: Distribution, x: seq<Float>): (r: Record)
    ensures d.asArray ==> r == FloatList(x)
    ensures !d.asArray ==> Kind(r) == (if d.index.IntIndex? then MappingIntFloat else MappingStrFloat) && WellFormed(r)
  {
    if d.asArray then FloatList(x)
    else match d.index
      case IntIndex(ks) => IntFloatMapping(DictFromPairs(ks, x))
      case StrIndex(ks) => StrFloatMapping(DictFromPairs(ks, x))
  }

  /**
   * Distribution.sample: in array mode the raw draw itself; in mapping mode,
   * with a distinct index and a draw of one value per entry, the mapping
   * from index[i] to the i-th drawn value.
   */
  function Sample(d: Distribution): (r: Record)
    ensures d.asArray ==> r == FloatList(d.rawRvs(d.size))
    ensures !d.asArray && DistinctIndex(d.index) && |d.rawRvs(d.size)| == IndexLength(d.index) ==>
      (d.index.IntIndex? ==> r == IntFloatMapping(Dict(d.index.ints, d.rawRvs(d.size)))) &&
      (d.index.StrIndex? ==> r == StrFloatMapping(Dict(d.index.strs, d.rawRvs(d.size))))
  {
    var x := d.rawRvs(d.size);
    if !d.asArray && DistinctIndex(d.index) && |x| == IndexLength(d.index) then
      ToRecordMapping(d, x);
      ToRecord(d, x)
    else ToRecord(d, x)
  }

  /** np.full(n, x) */
  function Full(n: nat, x: Float): (r: seq<Float>)
    ensures |r| == n && forall i :: 0 <= i < n ==> r[i] == x
  {
    seq(n, _ => x)
  }

  /**
   * Distribution.ppf: the raw ppf of `size` copies of x, as a record; np.full
   * refuses a negative size. In mapping mode, with a distinct index and one
   * quantile per entry, index[i] maps to the i-th quantile.
   */
  function Ppf(d: Distribution, x: Float): (r: Result<Record, Error>)
    ensures r.Failure? <==> d.size < 0
    ensures r.Failure? ==> r.error == ValueError(NegativeDimensionsMessage)
    ensures r.Success? && d.asArray ==> r.value == FloatList(d.rawPpf(Full(d.size, x)))
    ensures r.Success? && !d.asArray && DistinctIndex(d.index) && |d.rawPpf(Full(d.size, x))| == IndexLength(d.index) ==>
      (d.index.IntIndex? ==> r.value == IntFloatMapping(Dict(d.index.ints, d.rawPpf(Full(d.size, x))))) &&
      (d.index.StrIndex? ==> r.value == StrFloatMapping(Dict(d.index.strs, d.rawPpf(Full(d.size, x)))))
  {
    if d.size < 0 then Failure(ValueError(NegativeDimensionsMessage))
    else
      var q := d.rawPpf(Full(d.size, x));
      if !d.asArray && DistinctIndex(d.index) && |q| == IndexLength(d.index) then
        ToRecordMapping(d, q);
        Success(ToRecord(d, q))
      else Success(ToRecord(d, q))
  }

  /**
   * In mapping mode with a distinct index, an array of as many values as the
   * index becomes the mapping from index[i] to x[i], in index order.
   */
  lemma ToRecordMapping(d: Distribution, x: seq<Float>)
    requires !d.asArray && DistinctIndex(d.index) && |x| == IndexLength(d.index)
    ensures d.index.IntIndex? ==> ToRecord(d, x) == IntFloatMapping(Dict(d.index.ints, x))
    ensures d.index.StrIndex? ==> ToRecord(d, x) == StrFloatMapping(Dict(d.index.strs, x))
  {
    match d.index
    case IntIndex(ks) => DictFromDistinctPairs(ks, x);
    case StrIndex(ks) => DictFromDistinctPairs(ks, x);
  }

  /**
   * A distribution made from a distinct index or a non-negative size gives
   * records with `size` values, one per index entry, as long as the raw
   * sampler returns `size` values.
   */
  lemma SampleHasSize(size: Option<int>, index: Option<RecordIndex>, rvs: int -> seq<Float>, ppf: seq<Float> -> seq<Float>)
    requires NewDistribution(size, index, rvs, ppf).Success?
    requires size.Some? ==> size.value >= 0
    requires index.Some? ==> DistinctIndex(index.value)
    requires var d := NewDistribution(size, index, rvs, ppf).value; |rvs(d.size)| == d.size
    ensures var d := NewDistribution(size, index, rvs, ppf).value;
      |Values(Sample(d))| == d.size &&
      (size.Some? ==> Sample(d) == FloatList(rvs(d.size)))
  {
    var d := NewDistribution(size, index, rvs, ppf).value;
    if index.Some? {
      ToRecordMapping(d, rvs(d.size));
    }
  }

  /** Likewise for ppf, when the raw quantile function keeps the length of its argument. */
  lemma PpfHasSize(d: Distribution, x: Float)
    requires d.size >= 0
    requires d.asArray || (DistinctIndex(d.index) && IndexLength(d.index) == d.size)
    requires |d.rawPpf(Full(d.size, x))| == d.size
    ensures Ppf(d, x).Success? && |Values(Ppf(d, x).value)| == d.size
  {
    if !d.asArray {
      ToRecordMapping(d, d.rawPpf(Full(d.size, x)));
    }
  }

  /** Gaussian: the mean and deviation given, over the base distribution. */
  datatype Gaussian = Gaussian(mean: Float, std: Float, base: Distribution)

  /**
   * Gaussian.__init__, with scipy.stats.norm's sampler and quantile
   * function as parameters taking (loc, scale, ...).
   */
  function NewGaussian(mean: Float, std: Float, size: Option<int>, index: Option<RecordIndex>,
                       normRvs: (Float, Float, int) -> seq<Float>,
                       normPpf: (seq<Float>, Float, Float) -> seq<Float>): (r: Result<Gaussian, Error>)
    ensures r.Success? <==> (size.Some? != index.Some?)
    ensures r.Success? ==> Mean(r.value) == mean && Std(r.value) == std
    ensures r.Success? ==> Sample(r.value.base) == ToRecord(r.value.base, normRvs(mean, std, r.value.base.size))
    ensures r.Failure? ==> r.error == ValueError(if size.None? then NeitherMessage else BothMessage)
    ensures r.Success? ==> DerivedFrom(r.value.base, size, index)
    ensures r.Success? ==> forall x :: r.value.base.size >= 0 ==>
      Ppf(r.value.base, x) == Success(ToRecord(r.value.base, normPpf(Full(r.value.base.size, x), mean, std)))
  {
    var d := NewDistribution(size, index, n => normRvs(mean, std, n), x => normPpf(x, mean, std));
    if d.Failure? then Failure(d.error) else Success(Gaussian(mean, std, d.value))
  }

  /** Gaussian.mean: the mean the samples and quantiles are taken at. */
  function Mean(g: Gaussian): (r: Float)
    ensures r == g.mean
  {
    g.mean
  }

  /** Gaussian.std: the deviation the samples and quantiles are taken at. */
  function Std(g: Gaussian): (r: Float)
    ensures r == g.std
  {
    g.std
  }

  /** Uniform: the bounds given and their difference, over the base distribution. */
  datatype Uniform = Uniform(lowerBound: Float, upperBound: Float, scale: Float, base: Distribution)

  /**
   * Uniform.__init__, with the float difference and scipy.stats.uniform's
   * sampler and quantile function as parameters. Its sampler ignores the
   * size it is given and draws the distribution's own size.
   */
  function NewUniform(lowerBound: Float, upperBound: Float, size: Option<int>, index: Option<RecordIndex>,
                      minus: (Float, Float) -> Float,
                      uniformRvs: (Float, Float, int) -> seq<Float>,
                      uniformPpf: (seq<Float>, Float, Float) -> seq<Float>): (r: Result<Uniform, Error>)
    ensures r.Success? <==> (size.Some? != index.Some?)
    ensures r.Success? ==> LowerBound(r.value) == lowerBound && UpperBound(r.value) == upperBound
    ensures r.Success? ==> r.value.scale == minus(upperBound, lowerBound)
    ensures r.Success? ==> Sample(r.value.base) == ToRecord(r.value.base, uniformRvs(lowerBound, r.value.scale, r.value.base.size))
    ensures r.Failure? ==> r.error == ValueError(if size.None? then NeitherMessage else BothMessage)
    ensures r.Success? ==> DerivedFrom(r.value.base, size, index)
    ensures r.Success? ==> forall x :: r.value.base.size >= 0 ==>
      Ppf(r.value.base, x) == Success(ToRecord(r.value.base, uniformPpf(Full(r.value.base.size, x), lowerBound, r.value.scale)))
  {
    var scale := minus(upperBound, lowerBound);
    var ownSize := if size.Some? then size.value else if index.Some? then IndexLength(index.value) else 0;
    var d := NewDistribution(size, index, _ => uniformRvs(lowerBound, scale, ownSize), x => uniformPpf(x, lowerBound, scale));
    if d.Failure? then Failure(d.error) else Success(Uniform(lowerBound, upperBound, scale, d.value))
  }

  /** Uniform.lower_bound: the location of the samples and quantiles. */
  function LowerBound(u: Uniform): (r: Float)
    ensures r == u.lowerBound
  {
    u.lowerBound
  }

  /** Uniform.upper_bound: the bound the scale is measured to. */
  function UpperBound(u: Uniform): (r: Float)
    ensures r == u.upperBound
  {
    u.upperBound
  }
}
