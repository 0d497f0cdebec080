/**
 * The factory of src/lcrIndex/Index.cpp: `Index::create` turns an index
 * name and its list of string parameters into a configured index. The
 * model returns the configuration as a value; a `std::fatal` message and
 * an exception thrown by `std::stoul`/`std::stoll` both end the program,
 * and both are None.
 */
module IndexCreate {
  import opened Text
  import opened CStrings

  /** `std::numeric_limits<uint32_t>::max()`, the "no limit" default of several indexes. */
  const MaxUInt32: nat := UInt32Limit - 1

  /** The parameters of the KLC-style indexes: combination bound, reachability index and its parameter. */
  datatype KParams = KParams(k: nat, reachIndexName: string, reachIndexParam: nat)

  /** The index `Index::create` constructs, with the arguments it passes to the constructor. */
  datatype IndexConfig =
    | BFS
    | LandmarkPlus(landmarkCount: nat, nonLandmarkCount: nat)
    | LWBF(landmarkCount: nat, numBloomFilters: nat, bloomFilterBits: nat)
    | BFLPath(k: nat)
    | BloomGraph(k: nat)
    | BloomPath(k: nat)
    | BloomInFrequent(k: nat)
    | BloomGlobalMinLabel(k: nat)
    | ALC(reachIndexName: string, reachIndexParam: nat)
    | KLC(params: KParams)
    | KLCFreq(params: KParams)
    | KLCBFL(k: nat)
    | P2H(numMostFrequentLabels: nat)
    | ScaleHarness(indexName: string, indexParams: seq<string>, numMostFrequentLabels: nat)

  /** `std::stoul` narrowed to a `uint32_t` constructor argument. */
  function StoulU32(s: string): (r: Option<nat>)
    ensures r.Some? ==> r.value < UInt32Limit
  {
    match Stoul(s)
    case None => None
    case Some(v) => Some(UInt32(v))
  }

  /** `uint32_t(std::stoll(s))`. */
  function StollU32(s: string): (r: Option<nat>)
    ensures r.Some? ==> r.value < UInt32Limit
  {
    match Stoll(s)
    case None => None
    case Some(v) => Some(UInt32OfLong(v))
  }

  /** A slot that is "custom" keeps the maximum; any other is read with stoll. */
  function CustomOrStoll(s: string): (r: Option<nat>)
  {
    if s == "custom" then Some(MaxUInt32) else StollU32(s)
  }

  /** The test KLC and SH apply to their first parameter: non-empty and only digits. */
  predicate IsNumber(s: string)
  {
    |s| > 0 && AllDigits(s)
  }

  /** landmark-plus / li+: at most two parameters, each a number or "custom". */
  function CreateLandmarkPlus(params: seq<string>): (r: Option<IndexConfig>)
    ensures r.Some? ==> |params| <= 2 && r.value.LandmarkPlus? &&
                        r.value.landmarkCount < UInt32Limit && r.value.nonLandmarkCount < UInt32Limit
  {
    if |params| > 2 then None
    else if |params| == 0 then Some(LandmarkPlus(MaxUInt32, 0))
    else if params[0] == "custom" then
      if |params| == 2 then
        if params[1] == "custom" then Some(LandmarkPlus(MaxUInt32, MaxUInt32))
        else match StoulU32(params[1])
          case None => None
          case Some(n) => Some(LandmarkPlus(MaxUInt32, n))
      else Some(LandmarkPlus(MaxUInt32, 0))
    else
      match StoulU32(params[0])
      case None => None
      case Some(l) =>
        if |params| == 2 then
          if params[1] == "custom" then Some(LandmarkPlus(l, MaxUInt32))
          else match StoulU32(params[1])
            case None => None
            case Some(n) => Some(LandmarkPlus(l, n))
        else Some(LandmarkPlus(l, 0))
  }

  /** lwbf: no parameters, or exactly three, each a number or "custom". */
  function CreateLWBF(params: seq<string>): (r: Option<IndexConfig>)
    ensures r.Some? ==> (|params| == 0 || |params| == 3) && r.value.LWBF? && r.value.landmarkCount < UInt32Limit &&
                        r.value.numBloomFilters < UInt32Limit && r.value.bloomFilterBits < UInt32Limit
  {
    if |params| == 0 then Some(LWBF(MaxUInt32, MaxUInt32, MaxUInt32))
    else if |params| != 3 then None
    else
      match CustomOrStoll(params[0])
      case None => None
      case Some(i) =>
        match CustomOrStoll(params[1])
        case None => None
        case Some(j) =>
          match CustomOrStoll(params[2])
          case None => None
          case Some(k) => Some(LWBF(i, j, k))
  }

  /** The Bloom and BFL indexes: exactly one parameter, read with stoll. */
  function SingleParam(params: seq<string>): (r: Option<nat>)
  {
    if |params| != 1 then None else StollU32(params[0])
  }

  /** alc: the reachability index name and an optional parameter. */
  function CreateALC(params: seq<string>): (r: Option<IndexConfig>)
    ensures r.Some? <==> |params| == 1 || (|params| == 2 && StollU32(params[1]).Some?)
    ensures r.Some? ==> r.value.ALC? && r.value.reachIndexName == params[0] && r.value.reachIndexParam < UInt32Limit
  {
    if |params| > 2 || |params| == 0 then None
    else if |params| == 1 then Some(ALC(params[0], 0))
    else match StollU32(params[1])
      case None => None
      case Some(p) => Some(ALC(params[0], p))
  }

  /**
   * klc and klcfreq: an optional leading number k (else the maximum), the
   * reachability index name, and an optional parameter for it; a parameter
   * after that is ignored.
   */
  function KLCParams(params: seq<string>): (r: Option<KParams>)
  {
    if |params| > 3 || |params| == 0 then None
    else
      var k := if IsNumber(params[0]) then StoulU32(params[0]) else Some(MaxUInt32);
      var next := if IsNumber(params[0]) then 1 else 0;
      if k.None? || |params| <= next then None
      else if |params| <= next + 1 then Some(KParams(k.value, params[next], 0))
      else match StoulU32(params[next + 1])
        case None => None
        case Some(p) => Some(KParams(k.value, params[next], p))
  }

  /** klcbfl: k from the first parameter if there is one, else the maximum. */
  function CreateKLCBFL(params: seq<string>): (r: Option<IndexConfig>)
    ensures r.Some? ==> r.value.KLCBFL? && r.value.k < UInt32Limit
  {
    if |params| == 0 then Some(KLCBFL(MaxUInt32))
    else match StoulU32(params[0])
      case None => None
      case Some(k) => Some(KLCBFL(k))
  }

  /** p2h: twelve most frequent labels unless the first parameter says otherwise. */
  function CreateP2H(params: seq<string>): (r: Option<IndexConfig>)
    ensures r.Some? ==> r.value.P2H? && r.value.numMostFrequentLabels < UInt32Limit
    ensures |params| == 0 ==> r == Some(P2H(12))
  {
    if |params| == 0 then Some(P2H(12))
    else match StoulU32(params[0])
      case None => None
      case Some(w) => Some(P2H(w))
  }

  /** sh: an optional leading number w (else 12), the wrapped index name, and its parameters. */
  function CreateScaleHarness(params: seq<string>): (r: Option<IndexConfig>)
    ensures r.Some? ==> |params| >= 1 && r.value.ScaleHarness? && r.value.numMostFrequentLabels < UInt32Limit &&
                        |r.value.indexParams| < |params| && r.value.indexParams == params[|params| - |r.value.indexParams|..]
  {
    if |params| == 0 then None
    else
      var w := if IsNumber(params[0]) then StoulU32(params[0]) else Some(12);
      var next := if IsNumber(params[0]) then 1 else 0;
      if w.None? || |params| <= next then None
      else Some(ScaleHarness(params[next], params[next + 1..], w.value))
  }

  function WrapSingle(kind: string, k: Option<nat>): (r: Option<IndexConfig>)
    requires kind in {"bfl-path", "bgi", "bpi", "bfi", "bgmi"}
  {
    match k
    case None => None
    case Some(v) =>
      Some(if kind == "bfl-path" then BFLPath(v)
        else if kind == "bgi" then BloomGraph(v)
        else if kind == "bpi" then BloomPath(v)
        else if kind == "bfi" then BloomInFrequent(v)
        else BloomGlobalMinLabel(v))
  }

  function WrapKLC(freq: bool, p: Option<KParams>): (r: Option<IndexConfig>)
  {
    match p
    case None => None
    case Some(v) => Some(if freq then KLCFreq(v) else KLC(v))
  }

  /** The dispatch on the lower-cased name; an unknown name is fatal. */
  function CreateLower(n: string, params: seq<string>): (r: Option<IndexConfig>)
    ensures r.Some? ==> n in KnownNames
    ensures n == "bfs" ==> r == Some(BFS)
  {
    if n == "bfs" then Some(BFS)
    else if n == "landmark-plus" || n == "li+" then CreateLandmarkPlus(params)
    else if n == "lwbf" then CreateLWBF(params)
    else if n == "bfl-path" || n == "bfflp" then WrapSingle("bfl-path", SingleParam(params))
    else if n == "bgi" then WrapSingle("bgi", SingleParam(params))
    else if n == "bpi" then WrapSingle("bpi", SingleParam(params))
    else if n == "bfi" then WrapSingle("bfi", SingleParam(params))
    else if n == "bgmi" then WrapSingle("bgmi", SingleParam(params))
    else if n == "alc" then CreateALC(params)
    else if n == "klc" then WrapKLC(false, KLCParams(params))
    else if n == "klcfreq" || n == "klc-freq" then WrapKLC(true, KLCParams(params))
    else if n == "klcbfl" || n == "klc-bfl" then CreateKLCBFL(params)
    else if n == "p2h" || n == "pruned-2-hop" || n == "ph+" then CreateP2H(params)
    else if n == "scale-harness" || n == "sh" then CreateScaleHarness(params)
    else None
  }

  /** Every name Index::create accepts, in lower case. */
  const KnownNames: set<string> := {"bfs", "landmark-plus", "li+", "lwbf", "bfl-path", "bfflp", "bgi", "bpi",
    "bfi", "bgmi", "alc", "klc", "klcfreq", "klc-freq", "klcbfl", "klc-bfl", "p2h", "pruned-2-hop", "ph+",
    "scale-harness", "sh"}

  /** Index::create: the name is matched without regard to ASCII case. */
  function Create(name: string, params: seq<string>): (r: Option<IndexConfig>)
    ensures r.Some? ==> ToLower(name) in KnownNames
  {
    CreateLower(ToLower(name), params)
  }

  // ---------------------------------------------------------------------
  // Properties
  // ---------------------------------------------------------------------

  /** Upper and lower case select the same index with the same parameters. */
  lemma CaseInsensitive(name: string, params: seq<string>)
    ensures Create(ToLower(name), params) == Create(name, params)
  {
    ToLowerTwice(name);
  }

  /** A name outside the accepted ones is fatal, whatever the parameters. */
  lemma UnknownNameFatal(name: string, params: seq<string>)
    requires ToLower(name) !in KnownNames
    ensures Create(name, params) == None
  {
  }

  /** li+: more than two parameters is fatal; none gives (max, 0); "custom" keeps the maximum. */
  lemma LandmarkPlusDefaults(params: seq<string>, a: string, b: string)
    ensures |params| > 2 ==> CreateLandmarkPlus(params) == None
    ensures CreateLandmarkPlus([]) == Some(LandmarkPlus(MaxUInt32, 0))
    ensures CreateLandmarkPlus(["custom"]) == Some(LandmarkPlus(MaxUInt32, 0))
    ensures CreateLandmarkPlus(["custom", "custom"]) == Some(LandmarkPlus(MaxUInt32, MaxUInt32))
    ensures a != "custom" && StoulU32(a).Some? ==>
      CreateLandmarkPlus([a, "custom"]) == Some(LandmarkPlus(StoulU32(a).value, MaxUInt32))
    ensures b != "custom" && StoulU32(b).Some? ==>
      CreateLandmarkPlus(["custom", b]) == Some(LandmarkPlus(MaxUInt32, StoulU32(b).value))
  {
  }

  /** lwbf: any count of parameters other than zero or three is fatal; a "custom" slot stays at the maximum. */
  lemma LWBFArity(params: seq<string>)
    ensures |params| != 0 && |params| != 3 ==> CreateLWBF(params) == None
    ensures |params| == 3 && params[0] == "custom" && CreateLWBF(params).Some? ==>
      CreateLWBF(params).value.landmarkCount == MaxUInt32
    ensures |params| == 3 && params[1] == "custom" && CreateLWBF(params).Some? ==>
      CreateLWBF(params).value.numBloomFilters == MaxUInt32
    ensures |params| == 3 && params[2] == "custom" && CreateLWBF(params).Some? ==>
      CreateLWBF(params).value.bloomFilterBits == MaxUInt32
  {
  }

  /** klc: no parameters or more than three is fatal; a k with no index name after it is fatal. */
  lemma KLCArity(params: seq<string>)
    ensures |params| == 0 || |params| > 3 ==> KLCParams(params) == None
    ensures |params| == 1 && IsNumber(params[0]) ==> KLCParams(params) == None
    ensures KLCParams(params).Some? && !IsNumber(params[0]) ==>
      KLCParams(params).value.k == MaxUInt32 && KLCParams(params).value.reachIndexName == params[0]
    ensures KLCParams(params).Some? && IsNumber(params[0]) ==>
      KLCParams(params).value.reachIndexName == params[1]
  {
  }

  /** sh: w is 12 unless the first parameter is a number; the parameters after the index name pass through. */
  lemma ScaleHarnessParams(params: seq<string>)
    ensures |params| == 0 ==> CreateScaleHarness(params) == None
    ensures |params| == 1 && IsNumber(params[0]) ==> CreateScaleHarness(params) == None
    ensures |params| > 0 && !IsNumber(params[0]) ==>
      CreateScaleHarness(params) == Some(ScaleHarness(params[0], params[1..], 12))
    ensures CreateScaleHarness(params).Some? && IsNumber(params[0]) ==>
      CreateScaleHarness(params).value.indexName == params[1] &&
      CreateScaleHarness(params).value.indexParams == params[2..]
  {
  }

  // ---------------------------------------------------------------------
  // A command line for every configuration
  // ---------------------------------------------------------------------

  /** The name a configuration is created under. */
  function NameOf(c: IndexConfig): (r: string)
  {
    match c
    case BFS => "bfs"
    case LandmarkPlus(_, _) => "li+"
    case LWBF(_, _, _) => "lwbf"
    case BFLPath(_) => "bfl-path"
    case BloomGraph(_) => "bgi"
    case BloomPath(_) => "bpi"
    case BloomInFrequent(_) => "bfi"
    case BloomGlobalMinLabel(_) => "bgmi"
    case ALC(_, _) => "alc"
    case KLC(_) => "klc"
    case KLCFreq(_) => "klcfreq"
    case KLCBFL(_) => "klcbfl"
    case P2H(_) => "p2h"
    case ScaleHarness(_, _, _) => "sh"
  }

  /** The parameters that select a configuration: every number written out in decimal. */
  function ParamsOf(c: IndexConfig): (r: seq<string>)
  {
    match c
    case BFS => []
    case LandmarkPlus(l, n) => [NatToString(l), NatToString(n)]
    case LWBF(i, j, k) => [NatToString(i), NatToString(j), NatToString(k)]
    case BFLPath(k) => [NatToString(k)]
    case BloomGraph(k) => [NatToString(k)]
    case BloomPath(k) => [NatToString(k)]
    case BloomInFrequent(k) => [NatToString(k)]
    case BloomGlobalMinLabel(k) => [NatToString(k)]
    case ALC(name, p) => [name, NatToString(p)]
    case KLC(p) => [NatToString(p.k), p.reachIndexName, NatToString(p.reachIndexParam)]
    case KLCFreq(p) => [NatToString(p.k), p.reachIndexName, NatToString(p.reachIndexParam)]
    case KLCBFL(k) => [NatToString(k)]
    case P2H(w) => [NatToString(w)]
    case ScaleHarness(name, ps, w) => [NatToString(w), name] + ps
  }

  /** Every number the configuration holds fits the `uint32_t` the constructor takes. */
  predicate Fits(c: IndexConfig)
  {
    match c
    case BFS => true
    case LandmarkPlus(l, n) => l < UInt32Limit && n < UInt32Limit
    case LWBF(i, j, k) => i < UInt32Limit && j < UInt32Limit && k < UInt32Limit
    case BFLPath(k) => k < UInt32Limit
    case BloomGraph(k) => k < UInt32Limit
    case BloomPath(k) => k < UInt32Limit
    case BloomInFrequent(k) => k < UInt32Limit
    case BloomGlobalMinLabel(k) => k < UInt32Limit
    case ALC(_, p) => p < UInt32Limit
    case KLC(p) => p.k < UInt32Limit && p.reachIndexParam < UInt32Limit
    case KLCFreq(p) => p.k < UInt32Limit && p.reachIndexParam < UInt32Limit
    case KLCBFL(k) => k < UInt32Limit
    case P2H(w) => w < UInt32Limit
    case ScaleHarness(_, _, w) => w < UInt32Limit
  }

  /** A 32-bit number written in decimal is read back by stoul. */
  lemma ReadU32(n: nat)
    requires n < UInt32Limit
    ensures StoulU32(NatToString(n)) == Some(n) && NatToString(n) != "custom" && IsNumber(NatToString(n))
  {
    StoulNatToString(n, "");
    assert NatToString(n) + "" == NatToString(n);
    assert NatToString(n)[0] != 'c';
  }

  /** A 32-bit number written in decimal is read back by stoll. */
  lemma ReadL32(n: nat)
    requires n < UInt32Limit
    ensures StollU32(NatToString(n)) == Some(n) && CustomOrStoll(NatToString(n)) == Some(n)
  {
    StollNatToString(n);
    assert NatToString(n)[0] != 'c';
  }

  /** The canonical name is already lower case and known. */
  lemma NameOfLower(c: IndexConfig)
    ensures ToLower(NameOf(c)) == NameOf(c) && NameOf(c) in KnownNames
  {
    ToLowerOfLower(NameOf(c));
  }

  /** Creating an index from its canonical command line gives back the configuration. */
  lemma CreateRoundTrip(c: IndexConfig)
    requires Fits(c)
    ensures Create(NameOf(c), ParamsOf(c)) == Some(c)
  {
    NameOfLower(c);
    if c.BFS? || c.LandmarkPlus? || c.LWBF? {
      DispatchFirst(c);
    } else if c.BFLPath? || c.BloomGraph? || c.BloomPath? || c.BloomInFrequent? || c.BloomGlobalMinLabel? {
      DispatchSingle(c);
    } else {
      DispatchLast(c);
    }
  }

  lemma DispatchFirst(c: IndexConfig)
    requires Fits(c) && (c.BFS? || c.LandmarkPlus? || c.LWBF?)
    ensures CreateLower(NameOf(c), ParamsOf(c)) == Some(c)
  {
    if c.LandmarkPlus? {
      LandmarkPlusRoundTrip(c);
    } else if c.LWBF? {
      LWBFRoundTrip(c);
    }
  }

  lemma DispatchSingle(c: IndexConfig)
    requires Fits(c) && (c.BFLPath? || c.BloomGraph? || c.BloomPath? || c.BloomInFrequent? || c.BloomGlobalMinLabel?)
    ensures CreateLower(NameOf(c), ParamsOf(c)) == Some(c)
  {
    SingleRoundTrip(c, c.k);
  }

  lemma DispatchLast(c: IndexConfig)
    requires Fits(c) && (c.ALC? || c.KLC? || c.KLCFreq? || c.KLCBFL? || c.P2H? || c.ScaleHarness?)
    ensures CreateLower(NameOf(c), ParamsOf(c)) == Some(c)
  {
    if c.ALC? {
      DispatchALC(c);
    } else if c.KLC? {
      DispatchKLC(c);
    } else if c.KLCFreq? {
      DispatchKLCFreq(c);
    } else if c.KLCBFL? || c.P2H? {
      DispatchNumber(c);
    } else {
      DispatchScaleHarness(c);
    }
  }

  lemma DispatchALC(c: IndexConfig)
    requires Fits(c) && c.ALC?
    ensures CreateLower(NameOf(c), ParamsOf(c)) == Some(c)
  {
    ReadL32(c.reachIndexParam);
    assert CreateALC(ParamsOf(c)) == Some(c);
  }

  lemma DispatchKLC(c: IndexConfig)
    requires Fits(c) && c.KLC?
    ensures CreateLower(NameOf(c), ParamsOf(c)) == Some(c)
  {
    KLCRoundTrip(c.params);
  }

  lemma DispatchKLCFreq(c: IndexConfig)
    requires Fits(c) && c.KLCFreq?
    ensures CreateLower(NameOf(c), ParamsOf(c)) == Some(c)
  {
    KLCRoundTrip(c.params);
  }

  lemma DispatchNumber(c: IndexConfig)
    requires Fits(c) && (c.KLCBFL? || c.P2H?)
    ensures CreateLower(NameOf(c), ParamsOf(c)) == Some(c)
  {
    if c.KLCBFL? {
      ReadU32(c.k);
    } else {
      ReadU32(c.numMostFrequentLabels);
    }
  }

  lemma DispatchScaleHarness(c: IndexConfig)
    requires Fits(c) && c.ScaleHarness?
    ensures CreateLower(NameOf(c), ParamsOf(c)) == Some(c)
  {
    ScaleHarnessRoundTrip(c);
  }

  lemma LandmarkPlusRoundTrip(c: IndexConfig)
    requires c.LandmarkPlus? && Fits(c)
    ensures CreateLandmarkPlus(ParamsOf(c)) == Some(c)
  {
    ReadU32(c.landmarkCount);
    ReadU32(c.nonLandmarkCount);
  }

  lemma LWBFRoundTrip(c: IndexConfig)
    requires c.LWBF? && Fits(c)
    ensures CreateLWBF(ParamsOf(c)) == Some(c)
  {
    ReadL32(c.landmarkCount);
    ReadL32(c.numBloomFilters);
    ReadL32(c.bloomFilterBits);
  }

  lemma SingleRoundTrip(c: IndexConfig, k: nat)
    requires c.BFLPath? || c.BloomGraph? || c.BloomPath? || c.BloomInFrequent? || c.BloomGlobalMinLabel?
    requires c.k == k < UInt32Limit
    ensures ParamsOf(c) == [NatToString(k)] && SingleParam(ParamsOf(c)) == Some(k)
  {
    ReadL32(k);
  }

  lemma KLCRoundTrip(p: KParams)
    requires p.k < UInt32Limit && p.reachIndexParam < UInt32Limit
    ensures KLCParams([NatToString(p.k), p.reachIndexName, NatToString(p.reachIndexParam)]) == Some(p)
  {
    ReadU32(p.k);
    ReadU32(p.reachIndexParam);
  }

  lemma ScaleHarnessRoundTrip(c: IndexConfig)
    requires c.ScaleHarness? && Fits(c)
    ensures CreateScaleHarness(ParamsOf(c)) == Some(c)
  {
    ReadU32(c.numMostFrequentLabels);
    assert ParamsOf(c)[2..] == c.indexParams;
  }
}
