/**
 The ad, the read request, and the values the targeting index is keyed by
 (pkg/model/ad.go).

 Conventions. An ad id is a UUID, a 128-bit number; the order of its canonical
 text is the order of the number. A time is an integer; `createdAt` is in whole
 seconds, which is all the sorted set sees of it.
 */
module AdModel {
  type AdID = nat
  type Time = int
  type UInt8 = x: int | 0 <= x < 256

  datatype Option<+T> = None | Some(value: T)

  /** What a call yields: a value, or a Go run-time panic. */
  datatype Result<+T> = Ok(value: T) | Panic

  datatype Ad = Ad(
    id: AdID, title: string, content: string,
    startAt: Time, endAt: Time,
    ageStart: UInt8, ageEnd: UInt8,
    gender: seq<string>, country: seq<string>, platform: seq<string>,
    version: nat, createdAt: Time)

  datatype Request = Request(
    age: UInt8, country: string, gender: string, platform: string,
    offset: int, limit: int)

  /** The request's binding rules: offset at least 0, limit at least 1. */
  predicate WellFormed(req: Request) {
    req.offset >= 0 && req.limit >= 1
  }

  /** An index key: an age, a text, or the nil interface value of an unfilled slice slot. */
  datatype Value = AgeValue(age: UInt8) | TextValue(text: string) | NoValue

  datatype Key = Age | Country | Platform | Gender

  /** The key chain; `None` is the empty key, at both ends of the chain. */
  function GetNextIndexKey(current: Option<Key>): Option<Key> {
    match current
    case None => Some(Age)
    case Some(Age) => Some(Country)
    case Some(Country) => Some(Platform)
    case Some(Platform) => Some(Gender)
    case Some(Gender) => None
  }

  /** The key of a child of a node for `key`; `None` when the child is a leaf. */
  function Below(key: Key): Option<Key> {
    GetNextIndexKey(Some(key))
  }

  /** Levels from a node for `k` down to its leaves. */
  function Depth(k: Option<Key>): nat {
    match k
    case None => 0
    case Some(Gender) => 1
    case Some(Platform) => 2
    case Some(Country) => 3
    case Some(Age) => 4
  }

  /** The chain starts at the top of four levels and strictly advances to a leaf. */
  lemma KeyChainAdvances(key: Key)
    ensures Depth(GetNextIndexKey(None)) == 4
    ensures Depth(Below(key)) == Depth(Some(key)) - 1
  {}

  /** Go's uint8 conversion: arithmetic wraps modulo 256. */
  function Wrap8(x: int): UInt8 {
    x % 256
  }

  /** The ads the age expansion survives: its loop never ends well for AgeEnd 255. */
  predicate Indexable(ad: Ad) {
    ad.ageEnd < 255
  }

  function Texts(texts: seq<string>): seq<Value> {
    seq(|texts|, i requires 0 <= i < |texts| => TextValue(texts[i])) + [TextValue("")]
  }

  function Ages(ageStart: UInt8, ageEnd: UInt8): seq<Value>
    requires ageEnd < 255
  {
    if ageStart <= ageEnd then
      seq(ageEnd - ageStart + 1, i requires 0 <= i < ageEnd - ageStart + 1 => AgeValue(ageStart + i)) + [AgeValue(0)]
    else
      seq(Wrap8(ageEnd - ageStart + 1), _ => NoValue) + [AgeValue(0)]
  }

  function ValuesByKey(ad: Ad, key: Key): seq<Value>
    requires key == Age ==> Indexable(ad)
  {
    match key
    case Age => Ages(ad.ageStart, ad.ageEnd)
    case Country => Texts(ad.country)
    case Platform => Texts(ad.platform)
    case Gender => Texts(ad.gender)
  }

  /**
   The age branch of GetValueByKey, in uint8 arithmetic: it panics exactly when
   AgeEnd is 255 (the counter wraps and the index leaves the slice).
   */
  method ExpandAges(ageStart: UInt8, ageEnd: UInt8) returns (r: Result<seq<Value>>)
    ensures r.Panic? <==> ageEnd == 255
    ensures ageEnd < 255 ==> r == Ok(Ages(ageStart, ageEnd))
  {
    var slice := new Value[Wrap8(ageEnd - ageStart + 1)](_ => NoValue);
    var i: UInt8 := ageStart;
    ghost var n := 0;
    while i <= ageEnd
      invariant 0 <= n <= slice.Length
      invariant ageStart <= ageEnd ==> i == Wrap8(ageStart + n) && ageStart + n <= ageEnd + 1
      invariant ageStart > ageEnd ==> n == 0 && i == ageStart
      invariant forall j :: 0 <= j < n ==> slice[j] == AgeValue(ageStart + j)
      invariant forall j :: n <= j < slice.Length ==> slice[j] == NoValue
      decreases slice.Length - n
    {
      if Wrap8(i - ageStart) >= slice.Length {
        return Panic;
      }
      slice[Wrap8(i - ageStart)] := AgeValue(i);
      i := Wrap8(i + 1);
      n := n + 1;
    }
    assert slice[..] + [AgeValue(0)] == Ages(ageStart, ageEnd);
    return Ok(slice[..] + [AgeValue(0)]);
  }

  method ExpandTexts(texts: seq<string>) returns (r: seq<Value>)
    ensures r == Texts(texts)
  {
    var slice := new Value[|texts|](_ => NoValue);
    for i := 0 to |texts|
      invariant forall j :: 0 <= j < i ==> slice[j] == TextValue(texts[j])
    {
      slice[i] := TextValue(texts[i]);
    }
    r := slice[..] + [TextValue("")];
  }

  method GetValueByKey(ad: Ad, key: Key) returns (r: Result<seq<Value>>)
    ensures r.Panic? <==> key == Age && !Indexable(ad)
    ensures r.Ok? ==> r.value == ValuesByKey(ad, key)
  {
    match key {
      case Age => r := ExpandAges(ad.ageStart, ad.ageEnd);
      case Country => var t := ExpandTexts(ad.country); r := Ok(t);
      case Platform => var t := ExpandTexts(ad.platform); r := Ok(t);
      case Gender => var t := ExpandTexts(ad.gender); r := Ok(t);
    }
  }

  /**
   The ages an ad is indexed under: the wildcard 0 and those it targets. An
   inverted range targets none, but leaves the nil key behind unless it is
   inverted by exactly one.
   */
  lemma AgeMeaning(ad: Ad, v: Value)
    requires Indexable(ad)
    ensures v in ValuesByKey(ad, Age) <==>
      match v
      case AgeValue(x) => x == 0 || ad.ageStart <= x <= ad.ageEnd
      case TextValue(_) => false
      case NoValue => ad.ageStart > ad.ageEnd + 1
  {
    var vs := ValuesByKey(ad, Age);
    var n := |vs| - 1;
    assert vs[n] == AgeValue(0);
    if v.AgeValue? && ad.ageStart <= v.age <= ad.ageEnd {
      assert vs[v.age - ad.ageStart] == v;
    }
    if v.NoValue? && ad.ageStart > ad.ageEnd + 1 {
      assert vs[0] == NoValue;
    }
  }

  lemma TextMeaning(texts: seq<string>, v: Value)
    ensures v in Texts(texts) <==> v.TextValue? && (v.text == "" || v.text in texts)
  {
    var vs := Texts(texts);
    assert vs[|texts|] == TextValue("");
    if v.TextValue? && v.text in texts {
      var i :| 0 <= i < |texts| && texts[i] == v.text;
      assert vs[i] == v;
    }
  }

  /** The value a request looks up at one level. */
  function RequestValue(req: Request, key: Key): Value {
    match key
    case Age => AgeValue(req.age)
    case Country => TextValue(req.country)
    case Platform => TextValue(req.platform)
    case Gender => TextValue(req.gender)
  }

  /** What a request asks for: every field is unset or targeted by the ad. */
  predicate Matches(ad: Ad, req: Request) {
    && (req.age == 0 || ad.ageStart <= req.age <= ad.ageEnd)
    && (req.country == "" || req.country in ad.country)
    && (req.platform == "" || req.platform in ad.platform)
    && (req.gender == "" || req.gender in ad.gender)
  }

  /** First occurrences, in order. */
  function Dedup(s: seq<Value>): (r: seq<Value>)
    ensures forall v :: v in r <==> v in s
    ensures forall i, j :: 0 <= i < j < |r| ==> r[i] != r[j]
  {
    if s == [] then []
    else
      var d := Dedup(s[..|s| - 1]);
      assert s == s[..|s| - 1] + [s[|s| - 1]];
      if s[|s| - 1] in d then d else d + [s[|s| - 1]]
  }

  method UniqueSlice(slice: seq<Value>) returns (result: seq<Value>)
    ensures result == Dedup(slice)
  {
    var uniqueElements: set<Value> := {};
    result := [];
    for i := 0 to |slice|
      invariant result == Dedup(slice[..i])
      invariant forall v :: v in uniqueElements <==> v in result
    {
      assert slice[..i + 1][..i] == slice[..i];
      if slice[i] !in uniqueElements {
        uniqueElements := uniqueElements + {slice[i]};
        result := result + [slice[i]];
      }
    }
    assert slice[..|slice|] == slice;
  }
}
