/** `smallUtility`: two helpers installed on `ApplicationApi`. `getEggById` scans the nests
    for an egg; `getNodesByLocationId` collects the nodes of a location. Both take what the
    list calls they make settle to. */
module SmallUtility {
  import opened Wrappers
  import opened Strings
  import opened Json
  import opened Errors
  import opened Application

  // ----- reading decoded values the way JavaScript does -----

  /** `value.attributes[key]`: throws when `value` or its `attributes` is null or
      undefined; any non-object `attributes` has no such member. */
  function AttributeOf(value: Json, key: string): (r: Result<Option<Json>, Thrown>)
    ensures r.Err? ==> r.error == TypeError
    ensures !value.JObject? ==> r.Err?
    ensures r.Ok? && r.value.Some? ==>
      && value.JObject? && Lookup(value.fields, "attributes").Some?
      && Lookup(value.fields, "attributes").value.JObject?
      && Lookup(Lookup(value.fields, "attributes").value.fields, key) == r.value
  {
    match value
    case JObject(fields) =>
      (match Lookup(fields, "attributes")
       case None => Err(TypeError)
       case Some(JNull) => Err(TypeError)
       case Some(JObject(attributes)) => Ok(Lookup(attributes, key))
       case Some(_) => Ok(None))
    case _ => Err(TypeError)
  }

  /** The white space and line terminators `Number(text)` trims. */
  predicate IsJsSpace(c: char)
  {
    || c == '\t' || c == '\n' || c == '\U{000B}' || c == '\U{000C}' || c == '\r' || c == ' '
    || c == '\U{00A0}' || c == '\U{1680}' || '\U{2000}' <= c <= '\U{200A}'
    || c == '\U{2028}' || c == '\U{2029}' || c == '\U{202F}' || c == '\U{205F}'
    || c == '\U{3000}' || c == '\U{FEFF}'
  }

  predicate AllJsSpace(s: string)
  {
    forall i :: 0 <= i < |s| ==> IsJsSpace(s[i])
  }

  /** Drops the leading white space: what is left is a suffix that starts otherwise. */
  function TrimStart(s: string): (t: string)
    ensures |t| <= |s| && t == s[|s| - |t|..]
    ensures t != [] ==> !IsJsSpace(t[0])
    ensures forall i :: 0 <= i < |s| - |t| ==> IsJsSpace(s[i])
  {
    if s != [] && IsJsSpace(s[0]) then TrimStart(s[1..]) else s
  }

  /** Drops the trailing white space: what is left is a prefix that ends otherwise. */
  function TrimEnd(s: string): (t: string)
    ensures |t| <= |s| && t == s[..|t|]
    ensures t != [] ==> !IsJsSpace(t[|t| - 1])
    ensures forall i :: |t| <= i < |s| ==> IsJsSpace(s[i])
  {
    if s != [] && IsJsSpace(s[|s| - 1]) then TrimEnd(s[..|s| - 1]) else s
  }

  /** `Number(text)` for text that reads as an integer: optional white space around an
      optional sign and decimal digits, the empty text counting as 0. `None` stands for
      every other reading (NaN, and the fractional and other literal forms, which are not
      modelled). */
  function NumberOfText(text: string): (r: Option<int>)
    ensures AllJsSpace(text) ==> r == Some(0)
    ensures text != [] && AllDigits(text) ==> r == Some(DecimalValue(text))
  {
    NumberOfTrimmed(TrimEnd(TrimStart(text)))
  }

  /** The reading of the text once its white space is gone. */
  function NumberOfTrimmed(t: string): Option<int>
  {
    if t == [] then Some(0)
    else if AllDigits(t) then Some(DecimalValue(t))
    else if (t[0] == '+' || t[0] == '-') && |t| > 1 && AllDigits(t[1..]) then
      var magnitude: int := DecimalValue(t[1..]);
      Some(if t[0] == '-' then -magnitude else magnitude)
    else None
  }

  /** `String(value)`; inside an array, null becomes the empty string. */
  function TextOf(value: Json): string
    decreases value
  {
    match value
    case JNull => "null"
    case JBool(b) => if b then "true" else "false"
    case JNumber(n) => IntToString(n)
    case JString(s) => s
    case JArray(items) =>
      Join(",", seq(|items|, i requires 0 <= i < |items| =>
                      if items[i].JNull? then "" else TextOf(items[i])))
    case JObject(_) => "[object Object]"
  }

  /** `value == n` for a number `n`: `undefined` and `null` equal no number, a boolean is
      compared as 1 or 0, and strings, arrays and objects through their text. */
  predicate LooselyEquals(value: Option<Json>, n: int)
    ensures LooselyEquals(value, n) ==> value.Some? && !value.value.JNull?
    // the empty string and the empty array both read as 0
    ensures value == Some(JString("")) || value == Some(JArray([])) ==> (LooselyEquals(value, n) <==> n == 0)
  {
    match value
    case None => false
    case Some(JNull) => false
    case Some(JBool(b)) => (if b then 1 else 0) == n
    case Some(JNumber(m)) => m == n
    case Some(v) => NumberOfText(TextOf(v)) == Some(n)
  }

  /** A number equals its own decimal text loosely, and nothing equals `undefined` or
      `null`. */
  lemma LooseEqualityOfText(n: nat)
    ensures LooselyEquals(Some(JNumber(n)), n)
    ensures LooselyEquals(Some(JString(NatToString(n))), n)
    ensures !LooselyEquals(None, n) && !LooselyEquals(Some(JNull), n)
  {
    DigitsUntrimmed(NatToString(n));
    NatToStringRoundTrip(n);
  }

  /** White space around a run of digits, and a leading '+' or '-', are read as `Number`
      reads them. */
  lemma LooseEqualityOfPaddedText(digits: string, before: string, sign: char, after: string)
    requires digits != [] && AllDigits(digits)
    requires AllJsSpace(before) && AllJsSpace(after)
    requires sign == '+' || sign == '-'
    ensures LooselyEquals(Some(JString(before + ([sign] + digits + after))),
                          if sign == '-' then 0 - DecimalValue(digits) else DecimalValue(digits))
  {
    PaddedDigits(digits, before, sign, after);
  }

  lemma PaddedDigits(s: string, before: string, sign: char, after: string)
    requires s != [] && AllDigits(s)
    requires AllJsSpace(before) && AllJsSpace(after)
    requires sign == '+' || sign == '-'
    ensures NumberOfText(before + ([sign] + s + after)) == Some(if sign == '-' then 0 - DecimalValue(s) else DecimalValue(s))
  {
    var core := [sign] + s;
    assert core[0] == sign;
    assert core[|core| - 1] == s[|s| - 1];
    NumberOfPadded(before, core, after);
    SignedValue(sign, s);
  }

  /** White space around the text does not change its reading. */
  lemma NumberOfPadded(before: string, core: string, after: string)
    requires AllJsSpace(before) && AllJsSpace(after)
    requires core != [] && !IsJsSpace(core[0]) && !IsJsSpace(core[|core| - 1])
    ensures NumberOfText(before + (core + after)) == NumberOfTrimmed(core)
  {
    SignedDigitsTrimmed(before, core, after);
  }

  lemma SignedValue(sign: char, s: string)
    requires s != [] && AllDigits(s) && (sign == '+' || sign == '-')
    ensures NumberOfTrimmed([sign] + s) == Some(if sign == '-' then 0 - DecimalValue(s) else DecimalValue(s))
  {
    var t := [sign] + s;
    assert t[1..] == s;
    assert !AllDigits(t) by { assert !IsDigit(t[0]); }
  }

  /** A one-element array reads as the text of its element. */
  lemma LooseEqualityOfSingleton(n: nat)
    ensures LooselyEquals(Some(JArray([JString(NatToString(n))])), n)
  {
    var s := NatToString(n);
    var items := [JString(s)];
    assert seq(|items|, i requires 0 <= i < |items| => if items[i].JNull? then "" else TextOf(items[i])) == [s];
    assert TextOf(JArray(items)) == s;
    LooseEqualityOfText(n);
  }

  lemma DigitsUntrimmed(s: string)
    requires s != [] && AllDigits(s)
    ensures TrimEnd(TrimStart(s)) == s
  {
    assert IsDigit(s[0]);
    assert !IsJsSpace(s[0]);
    assert TrimStart(s) == s;
    assert IsDigit(s[|s| - 1]);
    assert !IsJsSpace(s[|s| - 1]);
  }

  lemma SignedDigitsTrimmed(before: string, core: string, after: string)
    requires AllJsSpace(before) && AllJsSpace(after)
    requires core != [] && !IsJsSpace(core[0]) && !IsJsSpace(core[|core| - 1])
    ensures TrimEnd(TrimStart(before + (core + after))) == core
  {
    assert (core + after)[0] == core[0];
    TrimStartSpaces(before, core + after);
    TrimEndSpaces(core, after);
  }

  lemma {:induction false} TrimStartSpaces(spaces: string, s: string)
    requires AllJsSpace(spaces)
    requires s != [] && !IsJsSpace(s[0])
    ensures TrimStart(spaces + s) == s
  {
    if spaces != [] {
      assert (spaces + s)[1..] == spaces[1..] + s;
      TrimStartSpaces(spaces[1..], s);
    } else {
      assert spaces + s == s;
    }
  }

  lemma {:induction false} TrimEndSpaces(s: string, spaces: string)
    requires AllJsSpace(spaces)
    requires s != [] && !IsJsSpace(s[|s| - 1])
    ensures TrimEnd(s + spaces) == s
  {
    if spaces != [] {
      var shorter := spaces[..|spaces| - 1];
      assert (s + spaces)[..|s + spaces| - 1] == s + shorter;
      TrimEndSpaces(s, shorter);
    } else {
      assert s + spaces == s;
    }
  }

  // ----- getEggById -----

  const EggLookupFailure: string := "Failed to locate egg configuration"

  /** What `for (const nest of nests)` iterates: only a list gets as far as a nest's
      attributes. Every other value (a string's characters included) ends in the same
      rethrown error, so it is not told apart. */
  function NestList(nests: Result<Returned, Thrown>): Option<seq<Json>>
  {
    match nests
    case Ok(Value(Some(JArray(items)))) => Some(items)
    case _ => None
  }

  /** The eggs `eggs.find` can search: only a list has a `find` method; a failed fetch or
      any other value throws inside the inner `try`, and the nest is skipped. */
  function EggList(eggs: Result<Returned, Thrown>): Option<seq<Json>>
  {
    match eggs
    case Ok(Value(Some(JArray(items)))) => Some(items)
    case _ => None
  }

  /** `eggs.find(e => e.attributes.id == eggId)`: the first egg whose id loosely equals,
      unless an egg before it has no readable attributes, which throws. */
  datatype Search = Found(egg: Json) | Missing | Broken

  function FindEgg(eggs: seq<Json>, eggId: int): (r: Search)
    ensures r.Found? ==> r.egg in eggs && AttributeOf(r.egg, "id").Ok? && LooselyEquals(AttributeOf(r.egg, "id").value, eggId)
    ensures eggs == [] ==> r == Missing
  {
    if eggs == [] then Missing
    else match AttributeOf(eggs[0], "id")
      case Err(_) => Broken
      case Ok(id) => if LooselyEquals(id, eggId) then Found(eggs[0]) else FindEgg(eggs[1..], eggId)
  }

  /** The scan over the nests from position `i`; `eggs(i)` is what the call for the nest
      at position `i` settles to. */
  function ScanNests(nests: seq<Json>, eggs: nat -> Result<Returned, Thrown>, eggId: int, i: nat): (r: Result<Json, Thrown>)
    ensures r.Ok? ==> AttributeOf(r.value, "id").Ok? && LooselyEquals(AttributeOf(r.value, "id").value, eggId)
    ensures i >= |nests| ==> r == Err(PlainError(EggLookupFailure))
    decreases |nests| - i
  {
    if i >= |nests| then Err(PlainError(EggLookupFailure))
    else if AttributeOf(nests[i], "id").Err? then Err(PlainError(EggLookupFailure))
    else
      var listed := EggList(eggs(i));
      if listed.Some? && FindEgg(listed.value, eggId).Found? then Ok(FindEgg(listed.value, eggId).egg)
      else ScanNests(nests, eggs, eggId, i + 1)
  }

  function EggById(eggId: int, nests: Result<Returned, Thrown>, eggs: nat -> Result<Returned, Thrown>): (r: Result<Json, Thrown>)
    ensures r.Ok? ==> AttributeOf(r.value, "id").Ok? && LooselyEquals(AttributeOf(r.value, "id").value, eggId)
    ensures NestList(nests).None? ==> r == Err(PlainError(EggLookupFailure))
  {
    match NestList(nests)
    case None => Err(PlainError(EggLookupFailure))
    case Some(list) => ScanNests(list, eggs, eggId, 0)
  }

  /** `getEggById`: the ordered scan, returning as soon as a nest holds the egg. */
  method GetEggById(eggId: int, nests: Result<Returned, Thrown>, eggs: nat -> Result<Returned, Thrown>)
    returns (r: Result<Json, Thrown>)
    ensures r == EggById(eggId, nests, eggs)
  {
    var listed := NestList(nests);
    if listed.None? {
      return Err(PlainError(EggLookupFailure));
    }
    var list := listed.value;
    var i := 0;
    while i < |list|
      invariant 0 <= i <= |list|
      invariant ScanNests(list, eggs, eggId, 0) == ScanNests(list, eggs, eggId, i)
      decreases |list| - i
    {
      var nestId := AttributeOf(list[i], "id");
      if nestId.Err? {
        return Err(PlainError(EggLookupFailure));
      }
      var fetched := EggList(eggs(i));
      if fetched.Some? {
        var found := FindEgg(fetched.value, eggId);
        if found.Found? {
          return Ok(found.egg);
        }
      }
      i := i + 1;
    }
    return Err(PlainError(EggLookupFailure));
  }

  /** The egg at `k` matches and every egg before it is readable and does not. */
  predicate FirstMatchAt(eggs: seq<Json>, eggId: int, k: nat)
    requires k < |eggs|
  {
    && AttributeOf(eggs[k], "id").Ok?
    && LooselyEquals(AttributeOf(eggs[k], "id").value, eggId)
    && forall j :: 0 <= j < k ==>
         AttributeOf(eggs[j], "id").Ok? && !LooselyEquals(AttributeOf(eggs[j], "id").value, eggId)
  }

  /** `find` returns the first egg that matches when every egg before it is readable. */
  lemma {:induction false} FindEggReturnsFirstMatch(eggs: seq<Json>, eggId: int, k: nat)
    requires k < |eggs| && FirstMatchAt(eggs, eggId, k)
    ensures FindEgg(eggs, eggId) == Found(eggs[k])
  {
    if k > 0 {
      assert FirstMatchAt(eggs[1..], eggId, k - 1) by {
        assert eggs[1..][k - 1] == eggs[k];
        forall j | 0 <= j < k - 1
          ensures AttributeOf(eggs[1..][j], "id").Ok? && !LooselyEquals(AttributeOf(eggs[1..][j], "id").value, eggId)
        {
          assert eggs[1..][j] == eggs[j + 1];
        }
      }
      FindEggReturnsFirstMatch(eggs[1..], eggId, k - 1);
    }
  }

  /** Whatever `find` returns is such a first match. */
  lemma {:induction false} FindEggFoundIsFirstMatch(eggs: seq<Json>, eggId: int)
    requires FindEgg(eggs, eggId).Found?
    ensures exists k :: 0 <= k < |eggs| && FirstMatchAt(eggs, eggId, k) && FindEgg(eggs, eggId).egg == eggs[k]
  {
    if LooselyEquals(AttributeOf(eggs[0], "id").value, eggId) {
      assert FirstMatchAt(eggs, eggId, 0);
    } else {
      assert FindEgg(eggs, eggId) == FindEgg(eggs[1..], eggId);
      FindEggFoundIsFirstMatch(eggs[1..], eggId);
      var j :| 0 <= j < |eggs[1..]| && FirstMatchAt(eggs[1..], eggId, j) && FindEgg(eggs[1..], eggId).egg == eggs[1..][j];
      assert FirstMatchAt(eggs, eggId, j + 1) by {
        assert eggs[j + 1] == eggs[1..][j];
        forall m | 0 <= m < j + 1
          ensures AttributeOf(eggs[m], "id").Ok? && !LooselyEquals(AttributeOf(eggs[m], "id").value, eggId)
        {
          if m > 0 {
            assert eggs[m] == eggs[1..][m - 1];
          }
        }
      }
    }
  }

  /** The nest at `j` is read and its eggs hold the egg. */
  predicate NestHolds(nests: seq<Json>, eggs: nat -> Result<Returned, Thrown>, eggId: int, j: nat)
    requires j < |nests|
  {
    && AttributeOf(nests[j], "id").Ok?
    && EggList(eggs(j)).Some?
    && FindEgg(EggList(eggs(j)).value, eggId).Found?
  }

  /** The nest at `j` is read and passed over: its fetch failed, or its eggs do not hold
      the egg, or one of them could not be read. */
  predicate NestPassed(nests: seq<Json>, eggs: nat -> Result<Returned, Thrown>, eggId: int, j: nat)
    requires j < |nests|
  {
    AttributeOf(nests[j], "id").Ok? && !NestHolds(nests, eggs, eggId, j)
  }

  /** Every nest from `i` up to `k` was read and passed over. */
  predicate PassedBetween(nests: seq<Json>, eggs: nat -> Result<Returned, Thrown>, eggId: int, i: nat, k: nat)
    requires k <= |nests|
  {
    forall j :: i <= j < k ==> NestPassed(nests, eggs, eggId, j)
  }

  /** Every failure, whatever its cause, is rethrown as the one lookup error. */
  lemma {:induction false} ScanFailsOneWay(nests: seq<Json>, eggs: nat -> Result<Returned, Thrown>, eggId: int, i: nat)
    ensures ScanNests(nests, eggs, eggId, i).Err? ==> ScanNests(nests, eggs, eggId, i) == Err(PlainError(EggLookupFailure))
    decreases |nests| - i
  {
    if i < |nests| && AttributeOf(nests[i], "id").Ok? {
      ScanFailsOneWay(nests, eggs, eggId, i + 1);
    }
  }

  lemma EggByIdFailsOneWay(eggId: int, nests: Result<Returned, Thrown>, eggs: nat -> Result<Returned, Thrown>)
    ensures EggById(eggId, nests, eggs).Err? ==> EggById(eggId, nests, eggs) == Err(PlainError(EggLookupFailure))
    ensures NestList(nests).None? ==> EggById(eggId, nests, eggs) == Err(PlainError(EggLookupFailure))
  {
    if NestList(nests).Some? {
      ScanFailsOneWay(NestList(nests).value, eggs, eggId, 0);
    }
  }

  /** The scan returns the egg of the first nest that holds it, provided every nest before
      it was read and passed over. */
  lemma ScanReturnsFirstNest(nests: seq<Json>, eggs: nat -> Result<Returned, Thrown>, eggId: int, i: nat, k: nat)
    requires i <= k < |nests| && NestHolds(nests, eggs, eggId, k)
    requires PassedBetween(nests, eggs, eggId, i, k)
    ensures ScanNests(nests, eggs, eggId, i) == Ok(FindEgg(EggList(eggs(k)).value, eggId).egg)
  {
    ScanSkipsPassed(nests, eggs, eggId, i, k);
    ScanStopsAt(nests, eggs, eggId, k);
  }

  /** Nests that are read and passed over leave the scan to the nests after them. */
  lemma {:induction false} ScanSkipsPassed(nests: seq<Json>, eggs: nat -> Result<Returned, Thrown>, eggId: int, i: nat, k: nat)
    requires i <= k <= |nests| && PassedBetween(nests, eggs, eggId, i, k)
    ensures ScanNests(nests, eggs, eggId, i) == ScanNests(nests, eggs, eggId, k)
    decreases k - i
  {
    if i < k {
      ScanPassesOver(nests, eggs, eggId, i);
      ScanSkipsPassed(nests, eggs, eggId, i + 1, k);
    }
  }

  /** A nest that holds the egg ends the scan with it. */
  lemma ScanStopsAt(nests: seq<Json>, eggs: nat -> Result<Returned, Thrown>, eggId: int, k: nat)
    requires k < |nests| && NestHolds(nests, eggs, eggId, k)
    ensures ScanNests(nests, eggs, eggId, k) == Ok(FindEgg(EggList(eggs(k)).value, eggId).egg)
  {
  }

  /** A nest that is read and passed over leaves the scan to the nests after it. */
  lemma ScanPassesOver(nests: seq<Json>, eggs: nat -> Result<Returned, Thrown>, eggId: int, i: nat)
    requires i < |nests| && NestPassed(nests, eggs, eggId, i)
    ensures ScanNests(nests, eggs, eggId, i) == ScanNests(nests, eggs, eggId, i + 1)
  {
  }

  /** Conversely, an egg the scan returns comes from such a first nest. */
  lemma {:induction false} ScanFoundIsFirstNest(nests: seq<Json>, eggs: nat -> Result<Returned, Thrown>, eggId: int, i: nat)
    requires ScanNests(nests, eggs, eggId, i).Ok?
    ensures exists k :: i <= k < |nests| && NestHolds(nests, eggs, eggId, k)
                        && PassedBetween(nests, eggs, eggId, i, k)
                        && ScanNests(nests, eggs, eggId, i).value == FindEgg(EggList(eggs(k)).value, eggId).egg
    decreases |nests| - i
  {
    if !NestHolds(nests, eggs, eggId, i) {
      assert NestPassed(nests, eggs, eggId, i);
      ScanFoundIsFirstNest(nests, eggs, eggId, i + 1);
      var k :| i + 1 <= k < |nests| && NestHolds(nests, eggs, eggId, k)
               && PassedBetween(nests, eggs, eggId, i + 1, k)
               && ScanNests(nests, eggs, eggId, i + 1).value == FindEgg(EggList(eggs(k)).value, eggId).egg;
      assert PassedBetween(nests, eggs, eggId, i, k);
    }
  }

  /** A nest whose egg fetch fails is skipped: the scan goes on as if it were not there. */
  lemma FailedFetchIsSkipped(nests: seq<Json>, eggs: nat -> Result<Returned, Thrown>, eggId: int, i: nat)
    requires i < |nests| && AttributeOf(nests[i], "id").Ok? && eggs(i).Err?
    ensures ScanNests(nests, eggs, eggId, i) == ScanNests(nests, eggs, eggId, i + 1)
  {
  }

  // ----- getNodesByLocationId -----

  const NodesFailurePrefix: string := "something went wrong: "

  /** What `response.forEach` walks: only a list has `forEach`; a rejected call throws
      its own error. */
  function NodeList(nodes: Result<Returned, Thrown>): Result<seq<Json>, Thrown>
  {
    match nodes
    case Err(e) => Err(e)
    case Ok(Value(Some(JArray(items)))) => Ok(items)
    case Ok(_) => Err(TypeError)
  }

  /** `node.attributes.location_id === locationId`. */
  predicate AtLocation(node: Json, locationId: int)
  {
    AttributeOf(node, "location_id") == Ok(Some(JNumber(locationId)))
  }

  /** The accumulator after `forEach` has visited `nodes` in order: a node whose attributes
      cannot be read throws and ends the walk. */
  function Collect(nodes: seq<Json>, locationId: int): (r: Result<seq<Json>, Thrown>)
    ensures r.Ok? ==> |r.value| <= |nodes|
    ensures r.Ok? ==> forall k :: 0 <= k < |r.value| ==> r.value[k] in nodes && AtLocation(r.value[k], locationId)
    ensures r.Err? ==> r.error == TypeError
  {
    if nodes == [] then Ok([])
    else
      match Collect(nodes[..|nodes| - 1], locationId)
      case Err(e) => Err(e)
      case Ok(found) =>
        var node := nodes[|nodes| - 1];
        match AttributeOf(node, "location_id")
        case Err(e) => Err(e)
        case Ok(at) => Ok(if at == Some(JNumber(locationId)) then found + [node] else found)
  }

  /** The nodes of the location, or the rethrown error. */
  function NodesAt(locationId: int, nodes: Result<Returned, Thrown>): (r: Result<seq<Json>, Thrown>)
    ensures r.Err? ==> r.error.PlainError? && StartsWith(r.error.message, NodesFailurePrefix)
    ensures r.Ok? ==> forall k :: 0 <= k < |r.value| ==> AtLocation(r.value[k], locationId)
  {
    match NodeList(nodes)
    case Err(e) =>
      StartsWithFront(NodesFailurePrefix, ToString(e));
      Err(PlainError(NodesFailurePrefix + ToString(e)))
    case Ok(items) =>
      match Collect(items, locationId)
      case Err(e) =>
        StartsWithFront(NodesFailurePrefix, ToString(e));
        Err(PlainError(NodesFailurePrefix + ToString(e)))
      case Ok(found) => Ok(found)
  }

  /** `getNodesByLocationId` as written: the walk fills `nodes`, which is then dropped, so
      the call settles to nothing however many nodes matched. */
  method GetNodesByLocationId(locationId: int, nodes: Result<Returned, Thrown>) returns (r: Result<(), Thrown>)
    ensures NodesAt(locationId, nodes).Ok? ==> r == Ok(())
    ensures NodesAt(locationId, nodes).Err? ==> r == Err(NodesAt(locationId, nodes).error)
  {
    var listed := NodeList(nodes);
    if listed.Err? {
      return Err(PlainError(NodesFailurePrefix + ToString(listed.error)));
    }
    var items := listed.value;
    var found: seq<Json> := [];
    var i := 0;
    while i < |items|
      invariant 0 <= i <= |items|
      invariant Collect(items[..i], locationId) == Ok(found)
    {
      assert items[..i + 1][..i] == items[..i];
      var at := AttributeOf(items[i], "location_id");
      if at.Err? {
        CollectStopsAtError(items, i + 1, locationId);
        return Err(PlainError(NodesFailurePrefix + ToString(at.error)));
      }
      if at.value == Some(JNumber(locationId)) {
        found := found + [items[i]];
      }
      i := i + 1;
    }
    assert items[..|items|] == items;
    return Ok(());
  }

  /** `getNodesByLocationId` as it was evidently meant: the same walk, returning what it
      collected. */
  method NodesByLocationId(locationId: int, nodes: Result<Returned, Thrown>) returns (r: Result<seq<Json>, Thrown>)
    ensures r == NodesAt(locationId, nodes)
  {
    var listed := NodeList(nodes);
    if listed.Err? {
      return Err(PlainError(NodesFailurePrefix + ToString(listed.error)));
    }
    var items := listed.value;
    var found: seq<Json> := [];
    var i := 0;
    while i < |items|
      invariant 0 <= i <= |items|
      invariant Collect(items[..i], locationId) == Ok(found)
    {
      assert items[..i + 1][..i] == items[..i];
      var at := AttributeOf(items[i], "location_id");
      if at.Err? {
        CollectStopsAtError(items, i + 1, locationId);
        return Err(PlainError(NodesFailurePrefix + ToString(at.error)));
      }
      if at.value == Some(JNumber(locationId)) {
        found := found + [items[i]];
      }
      i := i + 1;
    }
    assert items[..|items|] == items;
    return Ok(found);
  }

  /** Once a node throws, the walk ends with that error. */
  lemma {:induction false} CollectStopsAtError(nodes: seq<Json>, n: nat, locationId: int)
    requires n <= |nodes| && Collect(nodes[..n], locationId).Err?
    ensures Collect(nodes, locationId) == Collect(nodes[..n], locationId)
    decreases |nodes|
  {
    if n < |nodes| {
      var init := nodes[..|nodes| - 1];
      assert init[..n] == nodes[..n];
      CollectStopsAtError(init, n, locationId);
    } else {
      assert nodes[..n] == nodes;
    }
  }

  /** The nodes of the location in list order, duplicates included: a filter read from
      the front, independent of how the walk is written. */
  function NodesOfLocation(nodes: seq<Json>, locationId: int): seq<Json>
  {
    if nodes == [] then []
    else (if AtLocation(nodes[0], locationId) then [nodes[0]] else []) + NodesOfLocation(nodes[1..], locationId)
  }

  lemma {:induction false} NodesOfLocationAppend(nodes: seq<Json>, node: Json, locationId: int)
    ensures NodesOfLocation(nodes + [node], locationId)
            == NodesOfLocation(nodes, locationId) + (if AtLocation(node, locationId) then [node] else [])
  {
    if nodes == [] {
      assert [] + [node] == [node];
      assert [node][1..] == [];
    } else {
      assert (nodes + [node])[0] == nodes[0];
      assert (nodes + [node])[1..] == nodes[1..] + [node];
      NodesOfLocationAppend(nodes[1..], node, locationId);
    }
  }

  /** The walk succeeds exactly when every node's attributes can be read, and then keeps
      exactly the nodes of the location, in order and with their repetitions. */
  lemma CollectKeepsLocation(nodes: seq<Json>, locationId: int)
    ensures Collect(nodes, locationId).Ok? <==> forall i :: 0 <= i < |nodes| ==> AttributeOf(nodes[i], "location_id").Ok?
    ensures Collect(nodes, locationId).Ok? ==>
              var found := Collect(nodes, locationId).value;
              && found == NodesOfLocation(nodes, locationId)
              && |found| <= |nodes|
              && forall x :: x in found <==> x in nodes && AtLocation(x, locationId)
    ensures Collect(nodes, locationId).Err? ==> Collect(nodes, locationId).error == TypeError
  {
    CollectSucceeds(nodes, locationId);
    CollectIsFilter(nodes, locationId);
    NodesOfLocationMembers(nodes, locationId);
  }

  /** The walk succeeds exactly when every node's attributes can be read. */
  lemma {:induction false} CollectSucceeds(nodes: seq<Json>, locationId: int)
    ensures Collect(nodes, locationId).Ok? <==> forall i :: 0 <= i < |nodes| ==> AttributeOf(nodes[i], "location_id").Ok?
  {
    if nodes != [] {
      var init := nodes[..|nodes| - 1];
      var last := nodes[|nodes| - 1];
      CollectSucceeds(init, locationId);
      if !AttributeOf(last, "location_id").Ok? {
        assert !(forall i :: 0 <= i < |nodes| ==> AttributeOf(nodes[i], "location_id").Ok?);
      }
      if Collect(init, locationId).Err? {
        var i :| 0 <= i < |init| && !AttributeOf(init[i], "location_id").Ok?;
        assert nodes[i] == init[i];
      }
    }
  }

  /** The walk, read from the back, is the filter read from the front. */
  lemma {:induction false} CollectIsFilter(nodes: seq<Json>, locationId: int)
    ensures Collect(nodes, locationId).Ok? ==> Collect(nodes, locationId).value == NodesOfLocation(nodes, locationId)
  {
    if nodes != [] {
      var init := nodes[..|nodes| - 1];
      var last := nodes[|nodes| - 1];
      CollectIsFilter(init, locationId);
      NodesOfLocationAppend(init, last, locationId);
      assert nodes == init + [last];
    }
  }

  /** The filter keeps a value exactly when it is listed and at the location. */
  lemma {:induction false} NodesOfLocationMembers(nodes: seq<Json>, locationId: int)
    ensures forall x :: x in NodesOfLocation(nodes, locationId) <==> x in nodes && AtLocation(x, locationId)
  {
    if nodes != [] {
      NodesOfLocationMembers(nodes[1..], locationId);
      assert nodes == [nodes[0]] + nodes[1..];
    }
  }

  /** With one node at the location, the evident intent returns it, while the call as
      written settles to nothing. */
  lemma NodesFoundButDropped()
    ensures var node := JObject([("attributes", JObject([("location_id", JNumber(1))]))]);
      NodesAt(1, Ok(Value(Some(JArray([node]))))) == Ok([node])
  {
    var attributes := [("location_id", JNumber(1))];
    var node := JObject([("attributes", JObject(attributes))]);
    assert Lookup(attributes, "location_id") == Some(JNumber(1));
    assert Lookup(node.fields, "attributes") == Some(JObject(attributes));
    assert AttributeOf(node, "location_id") == Ok(Some(JNumber(1)));
    var nodes := [node];
    assert nodes[..|nodes| - 1] == [];
    assert nodes[|nodes| - 1] == node;
    assert Collect(nodes[..|nodes| - 1], 1) == Ok([]);
    assert [] + [node] == nodes;
    assert Collect(nodes, 1) == Ok(nodes);
    assert NodeList(Ok(Value(Some(JArray([node]))))) == Ok([node]);
  }

  /** Every failure is rethrown as "something went wrong: " followed by the error's text. */
  lemma NodesFailureWording(locationId: int, nodes: Result<Returned, Thrown>)
    ensures NodesAt(locationId, nodes).Err? ==>
              exists e :: NodesAt(locationId, nodes) == Err(PlainError(NodesFailurePrefix + ToString(e)))
    ensures nodes.Err? ==> NodesAt(locationId, nodes) == Err(PlainError(NodesFailurePrefix + ToString(nodes.error)))
  {
  }
}
