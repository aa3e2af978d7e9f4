/**
 The wire model: big integers travel as sentinel strings, strings that look like sentinels are
 escaped, and both directions rebuild a container only along paths that change.
 */
module Wire {

  const BIGINT_SENTINEL := "@@nevo:bigint:"
  const STRING_ESCAPE := "@@nevo:str:"
  const SENTINEL_PREFIX := "@@nevo:"
  const MAX_DEPTH: nat := 512

  datatype Result = Ok(value: Value) | TooDeep

  /** A tree of plain JavaScript data; an object is its entries in order. */
  datatype Value =
    | Undefined
    | Null
    | Bool(b: bool)
    | Num(x: real)
    | Str(s: string)
    | Big(n: int)
    | Arr(items: seq<Value>)
    | Obj(fields: seq<Field>)

  datatype Field = Field(key: string, value: Value)

  /** `normalizeWireValue` follows JSON in dropping undefined; `serializeBigInt` keeps it. */
  datatype Encoder = Normalize | Serialize

  // ----- decimal numerals -----

  predicate IsDigit(c: char) { '0' <= c <= '9' }

  function DigitOf(d: nat): char
    requires d < 10
  {
    '0' + d as char
  }

  function Digits(n: nat): (s: string)
    ensures |s| > 0 && forall i :: 0 <= i < |s| ==> IsDigit(s[i])
  {
    if n < 10 then [DigitOf(n)] else Digits(n / 10) + [DigitOf(n % 10)]
  }

  /** `BigInt.prototype.toString`. */
  function Decimal(n: int): string {
    if n < 0 then "-" + Digits(-n) else Digits(n)
  }

  function NatOf(s: string): nat
    requires forall i :: 0 <= i < |s| ==> IsDigit(s[i])
  {
    if s == [] then 0
    else
      assert IsDigit(s[|s| - 1]);
      NatOf(s[..|s| - 1]) * 10 + (s[|s| - 1] as int - '0' as int)
  }

  /** The pattern `^\d+$`. */
  predicate IsNatural(s: string) {
    |s| > 0 && forall i :: 0 <= i < |s| ==> IsDigit(s[i])
  }

  /** The pattern `^-?\d+$`. */
  predicate IsInteger(s: string) {
    IsNatural(s) || (|s| > 0 && s[0] == '-' && IsNatural(s[1..]))
  }

  /** `BigInt(digits)`. */
  function IntOf(s: string): int
    requires IsInteger(s)
  {
    if s[0] == '-' then -(NatOf(s[1..]) as int) else NatOf(s)
  }

  /** The pattern `^(\d+)n$`. */
  predicate IsLegacy(s: string) {
    |s| > 1 && s[|s| - 1] == 'n' && IsNatural(s[..|s| - 1])
  }

  lemma {:induction false} DigitsParse(n: nat)
    ensures NatOf(Digits(n)) == n
  {
    if n >= 10 {
      DigitsParse(n / 10);
      var s := Digits(n);
      assert s[..|s| - 1] == Digits(n / 10) && s[|s| - 1] == DigitOf(n % 10);
    } else {
      assert Digits(n)[..0] == [];
    }
  }

  /** Printing and parsing a big integer are inverse. */
  lemma DecimalParses(n: int)
    ensures IsInteger(Decimal(n)) && IntOf(Decimal(n)) == n
  {
    if n < 0 {
      DigitsParse(-n);
      assert Decimal(n)[1..] == Digits(-n);
    } else {
      DigitsParse(n);
    }
  }

  // ----- strings -----

  predicate StartsWith(s: string, p: string) {
    |p| <= |s| && s[..|p|] == p
  }

  predicate NeedsEscape(s: string) {
    StartsWith(s, BIGINT_SENTINEL) || StartsWith(s, STRING_ESCAPE)
  }

  function EncodeString(s: string): string {
    if NeedsEscape(s) then STRING_ESCAPE + s else s
  }

  function DecodeString(s: string, acceptLegacy: bool): Value {
    if StartsWith(s, STRING_ESCAPE) then Str(s[|STRING_ESCAPE|..])
    else if StartsWith(s, BIGINT_SENTINEL) && IsInteger(s[|BIGINT_SENTINEL|..]) then Big(IntOf(s[|BIGINT_SENTINEL|..]))
    else if acceptLegacy && IsLegacy(s) then Big(NatOf(s[..|s| - 1]))
    else Str(s)
  }

  lemma PrefixOfConcat(p: string, s: string)
    ensures StartsWith(p + s, p) && (p + s)[|p|..] == s
  {
  }

  lemma PrefixAt(s: string, p: string, k: nat)
    requires StartsWith(s, p) && k < |p|
    ensures s[k] == p[k]
  {
    assert s[..|p|][k] == s[k];
  }

  lemma SentinelsDiffer(s: string)
    ensures !(StartsWith(s, BIGINT_SENTINEL) && StartsWith(s, STRING_ESCAPE))
  {
    if StartsWith(s, BIGINT_SENTINEL) { PrefixAt(s, BIGINT_SENTINEL, 7); }
    if StartsWith(s, STRING_ESCAPE) { PrefixAt(s, STRING_ESCAPE, 7); }
  }

  lemma LegacyIsNotEscaped(s: string)
    requires IsLegacy(s)
    ensures !NeedsEscape(s)
  {
    assert s[..|s| - 1][0] == s[0];
    if StartsWith(s, BIGINT_SENTINEL) { PrefixAt(s, BIGINT_SENTINEL, 0); }
    if StartsWith(s, STRING_ESCAPE) { PrefixAt(s, STRING_ESCAPE, 0); }
  }

  /** A string survives the round trip exactly when it is not taken for a legacy numeral. */
  lemma StringRoundTrip(s: string, acceptLegacy: bool)
    ensures DecodeString(EncodeString(s), acceptLegacy) == Str(s) <==> !(acceptLegacy && IsLegacy(s))
    ensures acceptLegacy && IsLegacy(s) ==> DecodeString(EncodeString(s), acceptLegacy).Big?
  {
    PrefixOfConcat(STRING_ESCAPE, s);
    if IsLegacy(s) { LegacyIsNotEscaped(s); }
  }

  lemma BigRoundTrip(n: int, acceptLegacy: bool)
    ensures DecodeString(BIGINT_SENTINEL + Decimal(n), acceptLegacy) == Big(n)
  {
    DecimalParses(n);
    PrefixOfConcat(BIGINT_SENTINEL, Decimal(n));
    SentinelsDiffer(BIGINT_SENTINEL + Decimal(n));
  }

  // ----- trees -----

  /** `v` nests at most `room` containers. */
  predicate Fits(v: Value, room: int)
    decreases v
  {
    match v
    case Arr(items) => room > 0 && forall i :: 0 <= i < |items| ==> Fits(items[i], room - 1)
    case Obj(fields) => room > 0 && forall i :: 0 <= i < |fields| ==> Fits(fields[i].value, room - 1)
    case _ => true
  }

  /** The encoded tree, as a plain recursive map. */
  function Encode(v: Value, inArray: bool, e: Encoder): Value
    decreases v
  {
    match v
    case Undefined => if e.Normalize? && inArray then Null else Undefined
    case Big(n) => Str(BIGINT_SENTINEL + Decimal(n))
    case Str(s) => Str(EncodeString(s))
    case Arr(items) => Arr(seq(|items|, i requires 0 <= i < |items| => Encode(items[i], true, e)))
    case Obj(fields) => Obj(EncodeFields(fields, e))
    case _ => v
  }

  function EncodeFields(fields: seq<Field>, e: Encoder): (r: seq<Field>)
    decreases fields
  {
    if fields == [] then []
    else
      var f := fields[|fields| - 1];
      var w := Encode(f.value, false, e);
      EncodeFields(fields[..|fields| - 1], e) + if e.Normalize? && w.Undefined? then [] else [Field(f.key, w)]
  }

  function Decode(v: Value, acceptLegacy: bool): Value
    decreases v
  {
    match v
    case Str(s) => DecodeString(s, acceptLegacy)
    case Arr(items) => Arr(seq(|items|, i requires 0 <= i < |items| => Decode(items[i], acceptLegacy)))
    case Obj(fields) =>
      Obj(seq(|fields|, i requires 0 <= i < |fields| => Field(fields[i].key, Decode(fields[i].value, acceptLegacy))))
    case _ => v
  }

  /** What normalisation keeps: undefined is null in arrays and absent in objects. */
  function Strip(v: Value, inArray: bool, e: Encoder): Value
    decreases v
  {
    match v
    case Undefined => if e.Normalize? && inArray then Null else Undefined
    case Arr(items) => Arr(seq(|items|, i requires 0 <= i < |items| => Strip(items[i], true, e)))
    case Obj(fields) => Obj(StripFields(fields, e))
    case _ => v
  }

  function StripFields(fields: seq<Field>, e: Encoder): seq<Field>
    decreases fields
  {
    if fields == [] then []
    else
      var f := fields[|fields| - 1];
      StripFields(fields[..|fields| - 1], e)
        + if e.Normalize? && f.value.Undefined? then [] else [Field(f.key, Strip(f.value, false, e))]
  }

  /** No string leaf of `v` satisfies `p`. */
  predicate NoString(v: Value, p: string -> bool)
    decreases v
  {
    match v
    case Str(s) => !p(s)
    case Arr(items) => forall i :: 0 <= i < |items| ==> NoString(items[i], p)
    case Obj(fields) => forall i :: 0 <= i < |fields| ==> NoString(fields[i].value, p)
    case _ => true
  }

  predicate NoUndefined(v: Value)
    decreases v
  {
    match v
    case Undefined => false
    case Arr(items) => forall i :: 0 <= i < |items| ==> NoUndefined(items[i])
    case Obj(fields) => forall i :: 0 <= i < |fields| ==> NoUndefined(fields[i].value)
    case _ => true
  }

  predicate NoFieldString(fields: seq<Field>, p: string -> bool) {
    forall i :: 0 <= i < |fields| ==> NoString(fields[i].value, p)
  }

  lemma NoFieldStringLast(fields: seq<Field>, p: string -> bool)
    requires fields != []
    ensures var n := |fields| - 1;
            NoFieldString(fields, p) <==> NoFieldString(fields[..n], p) && NoString(fields[n].value, p)
  {
    var n := |fields| - 1;
    assert fields == fields[..n] + [fields[n]];
  }

  lemma DecodeMore(fields: seq<Field>, f: Field, acceptLegacy: bool)
    ensures Decode(Obj(fields + [f]), acceptLegacy).fields
            == Decode(Obj(fields), acceptLegacy).fields + [Field(f.key, Decode(f.value, acceptLegacy))]
  {
  }

  /** The fields' half of the round trip. */
  lemma {:induction false} FieldsRoundTrip(fields: seq<Field>, e: Encoder, acceptLegacy: bool)
    ensures Decode(Obj(EncodeFields(fields, e)), acceptLegacy) == Obj(StripFields(fields, e))
            <==> !acceptLegacy || NoFieldString(fields, IsLegacy)
    decreases fields
  {
    if fields != [] {
      var n := |fields| - 1;
      var init, f := fields[..n], fields[n];
      FieldsRoundTrip(init, e, acceptLegacy);
      TreeRoundTrip(f.value, false, e, acceptLegacy);
      NoFieldStringLast(fields, IsLegacy);
      var w := Encode(f.value, false, e);
      if e.Normalize? && w.Undefined? {
        assert EncodeFields(fields, e) == EncodeFields(init, e);
        assert StripFields(fields, e) == StripFields(init, e);
      } else {
        assert EncodeFields(fields, e) == EncodeFields(init, e) + [Field(f.key, w)];
        assert StripFields(fields, e) == StripFields(init, e) + [Field(f.key, Strip(f.value, false, e))];
        DecodeMore(EncodeFields(init, e), Field(f.key, w), acceptLegacy);
        SameLast(Decode(Obj(EncodeFields(init, e)), acceptLegacy).fields, Field(f.key, Decode(w, acceptLegacy)),
                 StripFields(init, e), Field(f.key, Strip(f.value, false, e)));
      }
    }
  }

  lemma SameLast<T>(s: seq<T>, x: T, t: seq<T>, y: T)
    ensures s + [x] == t + [y] <==> s == t && x == y
  {
    if s + [x] == t + [y] {
      assert (s + [x])[..|s|] == s && (t + [y])[..|t|] == t;
      assert (s + [x])[|s|] == x && (t + [y])[|t|] == y;
    }
  }

  /** Decoding an encoded tree gives back what the encoder keeps, exactly when legacy numerals cannot interfere. */
  lemma {:induction false} TreeRoundTrip(v: Value, inArray: bool, e: Encoder, acceptLegacy: bool)
    ensures Decode(Encode(v, inArray, e), acceptLegacy) == Strip(v, inArray, e)
            <==> !acceptLegacy || NoString(v, IsLegacy)
    ensures Encode(v, inArray, e).Undefined? <==> v.Undefined? && !(e.Normalize? && inArray)
    decreases v
  {
    match v
    case Str(s) => StringRoundTrip(s, acceptLegacy);
    case Big(n) => BigRoundTrip(n, acceptLegacy);
    case Arr(items) =>
      var dec := Decode(Encode(v, inArray, e), acceptLegacy).items;
      var str := Strip(v, inArray, e).items;
      forall i | 0 <= i < |items| ensures dec[i] == str[i] <==> !acceptLegacy || NoString(items[i], IsLegacy) {
        TreeRoundTrip(items[i], true, e, acceptLegacy);
      }
    case Obj(fields) => FieldsRoundTrip(fields, e, acceptLegacy);
    case _ =>
  }

  /** Serialising keeps every tree as it is, normalising those without undefined. */
  lemma {:induction false} StripKeeps(v: Value, inArray: bool, e: Encoder)
    requires e.Normalize? ==> NoUndefined(v)
    ensures Strip(v, inArray, e) == v
    decreases v
  {
    match v
    case Arr(items) =>
      forall i | 0 <= i < |items| ensures Strip(items[i], true, e) == items[i] {
        StripKeeps(items[i], true, e);
      }
      assert Strip(v, inArray, e).items == items;
    case Obj(fields) => StripKeepsFields(fields, e);
    case _ =>
  }

  lemma {:induction false} StripKeepsFields(fields: seq<Field>, e: Encoder)
    requires e.Normalize? ==> forall i :: 0 <= i < |fields| ==> NoUndefined(fields[i].value)
    ensures StripFields(fields, e) == fields
    decreases fields
  {
    if fields != [] {
      var n := |fields| - 1;
      StripKeepsFields(fields[..n], e);
      StripKeeps(fields[n].value, false, e);
      assert fields == fields[..n] + [fields[n]];
    }
  }

  /** Normalising leaves no undefined behind. */
  lemma {:induction false} NormalizedIsDefined(v: Value, inArray: bool)
    requires inArray || !v.Undefined?
    ensures NoUndefined(Encode(v, inArray, Normalize))
    decreases v
  {
    match v
    case Arr(items) =>
      forall i | 0 <= i < |items| ensures NoUndefined(Encode(items[i], true, Normalize)) {
        NormalizedIsDefined(items[i], true);
      }
    case Obj(fields) => NormalizedFieldsAreDefined(fields);
    case _ =>
  }

  lemma {:induction false} NormalizedFieldsAreDefined(fields: seq<Field>)
    ensures NoUndefined(Obj(EncodeFields(fields, Normalize)))
    decreases fields
  {
    if fields != [] {
      var f := fields[|fields| - 1];
      var before := EncodeFields(fields[..|fields| - 1], Normalize);
      NormalizedFieldsAreDefined(fields[..|fields| - 1]);
      assert NoUndefined(Obj(before));
      if !f.value.Undefined? {
        NormalizedIsDefined(f.value, false);
        MoreFields(before, Field(f.key, Encode(f.value, false, Normalize)));
      }
    }
  }

  lemma MoreFields(fields: seq<Field>, f: Field)
    requires NoUndefined(Obj(fields)) && NoUndefined(f.value)
    ensures NoUndefined(Obj(fields + [f]))
  {
    var all := Obj(fields + [f]);
    forall i | 0 <= i < |all.fields| ensures NoUndefined(all.fields[i].value) {
      if i < |fields| { assert all.fields[i] == Obj(fields).fields[i]; }
    }
  }

  lemma {:induction false} DecodedIsDefined(v: Value, acceptLegacy: bool)
    requires NoUndefined(v)
    ensures NoUndefined(Decode(v, acceptLegacy))
    decreases v
  {
    match v
    case Arr(items) =>
      forall i | 0 <= i < |items| ensures NoUndefined(Decode(items[i], acceptLegacy)) {
        DecodedIsDefined(items[i], acceptLegacy);
      }
    case Obj(fields) =>
      forall i | 0 <= i < |fields| ensures NoUndefined(Decode(fields[i].value, acceptLegacy)) {
        DecodedIsDefined(fields[i].value, acceptLegacy);
      }
    case _ =>
  }

  /**
   The wire round trip, for every tree, strings that start with a sentinel included: decoding
   gives the tree back if and only if it holds no legacy numeral, should those be accepted, and,
   under normalisation, no undefined.
   */
  lemma RoundTrip(v: Value, e: Encoder, acceptLegacy: bool)
    ensures Decode(Encode(v, true, e), acceptLegacy) == v
            <==> (e.Normalize? ==> NoUndefined(v)) && (!acceptLegacy || NoString(v, IsLegacy))
  {
    if e.Normalize? && !NoUndefined(v) {
      NormalizedIsDefined(v, true);
      DecodedIsDefined(Encode(v, true, e), acceptLegacy);
    } else {
      TreeRoundTrip(v, true, e, acceptLegacy);
      StripKeeps(v, true, e);
    }
  }

  predicate HasSentinelPrefix(s: string) {
    StartsWith(s, SENTINEL_PREFIX)
  }

  lemma SentinelsSharePrefix(s: string)
    ensures NeedsEscape(s) ==> HasSentinelPrefix(s)
  {
    if StartsWith(s, BIGINT_SENTINEL) {
      assert BIGINT_SENTINEL[..7] == SENTINEL_PREFIX;
      assert s[..7] == s[..14][..7];
    }
    if StartsWith(s, STRING_ESCAPE) {
      assert STRING_ESCAPE[..7] == SENTINEL_PREFIX;
      assert s[..7] == s[..11][..7];
    }
  }

  /** The fast path: a tree with no string that starts with the sentinel prefix decodes to itself. */
  lemma {:induction false} PlainTreeDecodesToItself(v: Value)
    requires NoString(v, HasSentinelPrefix)
    ensures Decode(v, false) == v
    decreases v
  {
    match v
    case Str(s) => SentinelsSharePrefix(s);
    case Arr(items) =>
      forall i | 0 <= i < |items| ensures Decode(items[i], false) == items[i] {
        PlainTreeDecodesToItself(items[i]);
      }
      assert Decode(v, false).items == items;
    case Obj(fields) =>
      forall i | 0 <= i < |fields| ensures Decode(fields[i].value, false) == fields[i].value {
        PlainTreeDecodesToItself(fields[i].value);
      }
      assert Decode(v, false).fields == fields;
    case _ =>
  }

  /** What encodes within the depth limit also decodes within it. */
  lemma {:induction false} EncodedFits(v: Value, inArray: bool, e: Encoder, room: int)
    requires Fits(v, room)
    ensures Fits(Encode(v, inArray, e), room)
    decreases v
  {
    match v
    case Arr(items) =>
      forall i | 0 <= i < |items| ensures Fits(Encode(items[i], true, e), room - 1) {
        EncodedFits(items[i], true, e, room - 1);
      }
    case Obj(fields) => EncodedFieldsFit(fields, e, room);
    case _ =>
  }

  lemma {:induction false} EncodedFieldsFit(fields: seq<Field>, e: Encoder, room: int)
    requires forall i :: 0 <= i < |fields| ==> Fits(fields[i].value, room - 1)
    ensures forall i :: 0 <= i < |EncodeFields(fields, e)| ==> Fits(EncodeFields(fields, e)[i].value, room - 1)
    decreases fields
  {
    if fields != [] {
      EncodedFieldsFit(fields[..|fields| - 1], e, room);
      EncodedFits(fields[|fields| - 1].value, false, e, room - 1);
    }
  }

  // ----- the copy-on-write traversals -----

  datatype Copy<T> = Original | Rebuilt(value: seq<T>)

  /** What has been rebuilt so far, or the untouched original. */
  ghost predicate Tracks<T>(copy: Copy<T>, original: seq<T>, mapped: seq<T>) {
    match copy
    case Original => mapped == original
    case Rebuilt(value) => value == mapped
  }

  /** `deserializeBigInt`: a container is reallocated only when some child changes. */
  method Deserialize(v: Value, acceptLegacy: bool, depth: nat) returns (r: Result)
    ensures r == if Fits(v, MAX_DEPTH - depth) then Ok(Decode(v, acceptLegacy)) else TooDeep
    decreases v, 1
  {
    match v
    case Str(s) => r := Ok(DecodeString(s, acceptLegacy));
    case Arr(items) =>
      if depth >= MAX_DEPTH { return TooDeep; }
      r := DeserializeItems(v, acceptLegacy, depth);
    case Obj(fields) =>
      if depth >= MAX_DEPTH { return TooDeep; }
      r := DeserializeFields(v, acceptLegacy, depth);
    case _ => r := Ok(v);
  }

  method DeserializeItems(v: Value, acceptLegacy: bool, depth: nat) returns (r: Result)
    requires v.Arr? && depth < MAX_DEPTH
    ensures r == if Fits(v, MAX_DEPTH - depth) then Ok(Decode(v, acceptLegacy)) else TooDeep
    decreases v, 0
  {
    var items := v.items;
    ghost var mapped := Decode(v, acceptLegacy).items;
    var copy: Copy<Value> := Original;
    for i := 0 to |items|
      invariant Tracks(copy, items[..i], mapped[..i])
      invariant forall k :: 0 <= k < i ==> Fits(items[k], MAX_DEPTH - depth - 1)
    {
      var next := Deserialize(items[i], acceptLegacy, depth + 1);
      if next.TooDeep? { return TooDeep; }
      assert items[..i + 1] == items[..i] + [items[i]] && mapped[..i + 1] == mapped[..i] + [next.value];
      if copy.Rebuilt? {
        copy := Rebuilt(copy.value + [next.value]);
      } else if next.value != items[i] {
        copy := Rebuilt(items[..i] + [next.value]);
      }
    }
    assert items[..|items|] == items && mapped[..|items|] == mapped;
    r := Ok(if copy.Rebuilt? then Arr(copy.value) else v);
  }

  method DeserializeFields(v: Value, acceptLegacy: bool, depth: nat) returns (r: Result)
    requires v.Obj? && depth < MAX_DEPTH
    ensures r == if Fits(v, MAX_DEPTH - depth) then Ok(Decode(v, acceptLegacy)) else TooDeep
    decreases v, 0
  {
    var fields := v.fields;
    ghost var mapped := Decode(v, acceptLegacy).fields;
    var copy: Copy<Field> := Original;
    for i := 0 to |fields|
      invariant Tracks(copy, fields[..i], mapped[..i])
      invariant forall k :: 0 <= k < i ==> Fits(fields[k].value, MAX_DEPTH - depth - 1)
    {
      var f := fields[i];
      assert f.value < v;
      var next := Deserialize(f.value, acceptLegacy, depth + 1);
      if next.TooDeep? { return TooDeep; }
      assert fields[..i + 1] == fields[..i] + [f] && mapped[..i + 1] == mapped[..i] + [Field(f.key, next.value)];
      if copy.Original? && (next.value != f.value || f.key == "__proto__") {
        copy := Rebuilt(fields[..i]);
      }
      if copy.Rebuilt? {
        copy := Rebuilt(copy.value + [Field(f.key, next.value)]);
      }
    }
    assert fields[..|fields|] == fields && mapped[..|fields|] == mapped;
    r := Ok(if copy.Rebuilt? then Obj(copy.value) else v);
  }

  /** `normalizeWireValue`, with the same copy-on-write discipline. */
  method NormalizeVisit(v: Value, depth: nat, inArray: bool) returns (r: Result)
    ensures r == if Fits(v, MAX_DEPTH - depth) then Ok(Encode(v, inArray, Normalize)) else TooDeep
    decreases v, 1
  {
    match v
    case Undefined => r := Ok(if inArray then Null else Undefined);
    case Big(n) => r := Ok(Str(BIGINT_SENTINEL + Decimal(n)));
    case Str(s) => r := Ok(if NeedsEscape(s) then Str(STRING_ESCAPE + s) else v);
    case Arr(items) =>
      if depth >= MAX_DEPTH { return TooDeep; }
      r := NormalizeItems(v, depth, inArray);
    case Obj(fields) =>
      if depth >= MAX_DEPTH { return TooDeep; }
      r := NormalizeFields(v, depth, inArray);
    case _ => r := Ok(v);
  }

  method NormalizeItems(v: Value, depth: nat, inArray: bool) returns (r: Result)
    requires v.Arr? && depth < MAX_DEPTH
    ensures r == if Fits(v, MAX_DEPTH - depth) then Ok(Encode(v, inArray, Normalize)) else TooDeep
    decreases v, 0
  {
    var items := v.items;
    ghost var mapped := Encode(v, inArray, Normalize).items;
    var copy: Copy<Value> := Original;
    for i := 0 to |items|
      invariant Tracks(copy, items[..i], mapped[..i])
      invariant forall k :: 0 <= k < i ==> Fits(items[k], MAX_DEPTH - depth - 1)
    {
      var next := NormalizeVisit(items[i], depth + 1, true);
      if next.TooDeep? { return TooDeep; }
      assert items[..i + 1] == items[..i] + [items[i]] && mapped[..i + 1] == mapped[..i] + [next.value];
      if copy.Rebuilt? {
        copy := Rebuilt(copy.value + [next.value]);
      } else if next.value != items[i] {
        copy := Rebuilt(items[..i] + [next.value]);
      }
    }
    assert items[..|items|] == items && mapped[..|items|] == mapped;
    r := Ok(if copy.Rebuilt? then Arr(copy.value) else v);
  }

  method NormalizeFields(v: Value, depth: nat, inArray: bool) returns (r: Result)
    requires v.Obj? && depth < MAX_DEPTH
    ensures r == if Fits(v, MAX_DEPTH - depth) then Ok(Encode(v, inArray, Normalize)) else TooDeep
    decreases v, 0
  {
    var fields := v.fields;
    var copy: Copy<Field> := Original;
    for i := 0 to |fields|
      invariant Tracks(copy, fields[..i], EncodeFields(fields[..i], Normalize))
      invariant forall k :: 0 <= k < i ==> Fits(fields[k].value, MAX_DEPTH - depth - 1)
    {
      var f := fields[i];
      assert f.value < v;
      var next := NormalizeVisit(f.value, depth + 1, false);
      if next.TooDeep? { return TooDeep; }
      assert fields[..i + 1] == fields[..i] + [f] && fields[..i + 1][..i] == fields[..i];
      if copy.Original? && (next.value != f.value || f.value.Undefined?) {
        copy := Rebuilt(fields[..i]);
      }
      if copy.Rebuilt? && !next.value.Undefined? {
        copy := Rebuilt(copy.value + [Field(f.key, next.value)]);
      }
    }
    assert fields[..|fields|] == fields;
    r := Ok(if copy.Rebuilt? then Obj(copy.value) else v);
  }

  /** End to end: whatever encodes within the depth limit decodes to what normalisation keeps of it. */
  method EncodeThenDecode(v: Value) returns (encoded: Result, decoded: Result)
    ensures encoded.Ok? <==> Fits(v, MAX_DEPTH)
    ensures encoded.Ok? ==> decoded == Ok(Strip(v, true, Normalize))
    ensures encoded.Ok? ==> (decoded == Ok(v) <==> NoUndefined(v))
    ensures encoded.TooDeep? ==> decoded == TooDeep
  {
    encoded := NormalizeVisit(v, 0, true);
    if encoded.TooDeep? { return encoded, TooDeep; }
    EncodedFits(v, true, Normalize, MAX_DEPTH);
    TreeRoundTrip(v, true, Normalize, false);
    RoundTrip(v, Normalize, false);
    decoded := Deserialize(encoded.value, false, 0);
  }
}
