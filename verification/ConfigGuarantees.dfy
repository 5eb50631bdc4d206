/** What loading a configuration guarantees, stated on the flat leaf list that Config.LoadStruct is proved
    to follow. */
module ConfigGuarantees {
  import opened Prelude
  import opened Text
  import opened Config

  /** Putting fields into an exported struct of their own, embedded or named, changes no leaf. */
  lemma NestingIsTransparent(a: seq<Field>, block: seq<Field>, b: seq<Field>)
    ensures Flatten(a + [Nested(true, block)] + b, true) == Flatten(a + block + b, true)
  {
    FlattenConcat(a + [Nested(true, block)], b, true);
    FlattenConcat(a, [Nested(true, block)], true);
    FlattenConcat(a + block, b, true);
    FlattenConcat(a, block, true);
    assert [Nested(true, block)][1..] == [] && Flatten([], true) == [];
    assert Flatten([Nested(true, block)], true) == Flatten(block, true);
  }

  /** An unexported struct is passed over with all that is in it, tags and all. */
  lemma UnexportedIsPassedOver(env: Env, fields: seq<Field>, vals: seq<Value>)
    requires |vals| == |Flatten([Nested(false, fields)], true)|
    ensures LoadSlots(env, Flatten([Nested(false, fields)], true), vals) == (vals, None)
  {
    var block := Nested(false, fields);
    assert [block][1..] == [] && Flatten([], true) == [];
    assert Flatten([block], true) == FlattenField(block, true);
    UnsettableKept(env, block, vals);
  }

  /** The first leaf that cannot be loaded, or the number of leaves if all can. */
  function FirstFailure(env: Env, slots: seq<Slot>): (f: nat)
    ensures f <= |slots|
    ensures f < |slots| ==> Resolve(env, slots[f]).Fail?
    ensures forall j :: 0 <= j < f ==> !Resolve(env, slots[j]).Fail?
  {
    if slots == [] || Resolve(env, slots[0]).Fail? then 0
    else
      var f := FirstFailure(env, slots[1..]);
      assert forall j :: 0 <= j < f ==> slots[1..][j] == slots[j + 1];
      1 + f
  }

  /** Leaf by leaf: up to the first failure every leaf is set, defaulted or kept on its own account; from
      there on nothing is touched; and the error is that leaf's. */
  lemma {:induction false} LeafByLeaf(env: Env, slots: seq<Slot>, vals: seq<Value>)
    requires |slots| == |vals|
    ensures var (r, e) := LoadSlots(env, slots, vals);
            var f := FirstFailure(env, slots);
            && (forall j :: 0 <= j < f ==> r[j] == Apply(Resolve(env, slots[j]), vals[j]))
            && (forall j :: f <= j < |vals| ==> r[j] == vals[j])
            && e == if f < |slots| then Some(Resolve(env, slots[f]).error) else None
  {
    if slots != [] && !Resolve(env, slots[0]).Fail? {
      LeafByLeaf(env, slots[1..], vals[1..]);
      var (r, e) := LoadSlots(env, slots, vals);
      var (rest, _) := LoadSlots(env, slots[1..], vals[1..]);
      var f := FirstFailure(env, slots);
      forall j | 0 <= j < |vals| ensures r[j] == if j < f then Apply(Resolve(env, slots[j]), vals[j]) else vals[j] {
        if j > 0 { assert r[j] == rest[j - 1] && slots[1..][j - 1] == slots[j] && vals[1..][j - 1] == vals[j]; }
      }
    }
  }

  /** One leaf, written out: unexported or untagged it is passed over; else it is set from the environment, else
      from its default, and text that does not parse is an error; without either it is missing if it is required
      and keeps its value if it is not. */
  lemma OneLeaf(env: Env, settable: bool, tag: Tag, kind: Kind, v: Value)
    ensures Flatten([Leaf(settable, tag, kind)], true) == [Slot(settable && tag.env != "", tag, kind)]
    ensures var slots := Flatten([Leaf(settable, tag, kind)], true);
            LoadSlots(env, slots, [v])
            == if !settable || tag.env == "" then ([v], None)
               else if tag.env in env then OneValue(tag.env, FromText(kind, env[tag.env]), v)
               else if tag.default.Some? then OneValue(tag.env, FromText(kind, tag.default.value), v)
               else if tag.required then ([v], Some(Missing(tag.env)))
               else ([v], None)
  {
    assert [Leaf(settable, tag, kind)][1..] == [] && Flatten([], true) == [];
    OneSlot(env, Slot(settable && tag.env != "", tag, kind), v);
  }

  function OneValue(key: string, parsed: Option<Value>, v: Value): (seq<Value>, Option<Error>) {
    if parsed.Some? then ([parsed.value], None) else ([v], Some(Invalid(key)))
  }

  /** A leaf that is unset, has no default and is required is the error; every leaf before it being loadable. */
  lemma MissingIsReported(env: Env, slots: seq<Slot>, vals: seq<Value>, j: nat)
    requires |slots| == |vals| && j < |slots| && slots[j].active
    requires slots[j].tag.env !in env && slots[j].tag.default == None && slots[j].tag.required
    requires LoadSlots(env, slots[..j], vals[..j]).1 == None
    ensures LoadSlots(env, slots, vals).1 == Some(Missing(slots[j].tag.env))
    ensures LoadSlots(env, slots, vals).0[j..] == vals[j..]
  {
    assert slots == slots[..j] + slots[j..] && vals == vals[..j] + vals[j..];
    LoadConcat(env, slots[..j], slots[j..], vals[..j], vals[j..]);
    assert slots[j..][0] == slots[j];
  }

  /** Load under an empty environment: a leaf with a default has it, and one without is its type's zero value. */
  lemma LoadedAlone(kind: Kind, default: Option<string>)
    ensures var slot := Slot(true, Tag("KEY", default, false), kind);
            LoadSlots(map[], [slot], Zeros([slot]))
            == if default.Some? then OneValue("KEY", FromText(kind, default.value), Zero(kind)) else ([Zero(kind)], None)
    ensures match kind
            case KString => Zero(kind) == VString([])
            case KBool => Zero(kind) == VBool(false)
            case KInt(_) => Zero(kind) == VInt(0)
            case KUint(_) => Zero(kind) == VUint(0)
            case KStrings => Zero(kind) == VStrings([])
            case _ => true
  {
    var slot := Slot(true, Tag("KEY", default, false), kind);
    OneSlot(map[], slot, Zero(kind));
    assert Zeros([slot]) == [Zero(kind)];
  }

  /** What a text denotes, kind by kind, written out: itself; a truth value; the number, wrapped to the width; the
      trimmed parts between commas; what the type's own parser says; and for no other kind anything. */
  lemma TextDenotes(raw: string, w: Width, parse: string -> Option<int>, render: int -> string)
    ensures FromText(KString, raw) == Some(VString(raw))
    ensures FromText(KBool, raw).Some? <==> ParseBool(raw).Some?
    ensures forall b :: ParseBool(raw) == Some(b) ==> FromText(KBool, raw) == Some(VBool(b))
    ensures FromText(KInt(w), raw).Some? <==> ParseInt(raw).Some?
    ensures forall n :: ParseInt(raw) == Some(n) ==> FromText(KInt(w), raw) == Some(VInt(WrapInt(n, w)))
    ensures FromText(KUint(w), raw).Some? <==> ParseUint(raw).Some?
    ensures forall u :: ParseUint(raw) == Some(u) ==> FromText(KUint(w), raw) == Some(VUint(WrapUint(u, w)))
    ensures exists parts :: Join(parts) == raw && parts != [] && CommaFree(parts) && FromText(KStrings, raw) == Some(VStrings(TrimAll(parts)))
    ensures FromText(KParsed(parse, render), raw).Some? <==> parse(raw).Some?
    ensures forall t :: parse(raw) == Some(t) ==> FromText(KParsed(parse, render), raw) == Some(VParsed(t))
    ensures FromText(KUnsupported, raw) == None
  {
    JoinOfSplit(raw);
  }

  // ---- Round trip ----

  /** The value is one a field of this kind can hold at all. */
  predicate OfKind(kind: Kind, v: Value) {
    match kind
    case KString => v.VString?
    case KBool => v.VBool?
    case KInt(_) => v.VInt?
    case KUint(_) => v.VUint?
    case KStrings => v.VStrings?
    case KParsed(_, _) => v.VParsed?
    case KUnsupported => false
  }

  /** The text an operator writes for a value. */
  function ToText(kind: Kind, v: Value): string
    requires OfKind(kind, v)
  {
    match v
    case VString(s) => s
    case VBool(b) => FormatBool(b)
    case VInt(n) => FormatInt(n)
    case VUint(u) => Decimal(u)
    case VStrings(parts) => Join(parts)
    case VParsed(token) => kind.render(token)
  }

  /** Which values come back from their text. */
  predicate Survives(kind: Kind, v: Value)
    requires OfKind(kind, v)
  {
    match v
    case VString(_) => true
    case VBool(_) => true
    case VInt(n) => -(Modulus(kind.w) as int) <= 2 * n < Modulus(kind.w)
    case VUint(u) => u < Modulus(kind.w)
    case VStrings(parts) => CleanList(parts)
    case VParsed(token) => kind.parse(kind.render(token)) == Some(token)
  }

  /** The widths in figures. */
  lemma WidthsInFigures()
    ensures Modulus(W8) == 256 && Modulus(W16) == 65536 && Modulus(W32) == 4294967296
    ensures Modulus(W64) == 18446744073709551616
  {
  }

  /** What a number outside a field's range becomes: one in the range, a whole number of moduli away. */
  lemma WrapsByModulus(n: int, u: nat, w: Width)
    ensures exists q: int :: WrapInt(n, w) == n + q * Modulus(w)
    ensures exists q: int :: WrapUint(u, w) == u + q * Modulus(w)
    ensures WrapUint(u, w) < Modulus(w)
  {
    var m, q := Modulus(w), n / Modulus(w);
    assert n == q * m + n % m;
    assert u == u / m * m + u % m;
    assert WrapInt(n, w) == n + (if WrapInt(n, w) < 0 then -q - 1 else -q) * m;
    assert WrapUint(u, w) == u + (-(u / m)) * m;
  }

  lemma WrapIntExact(n: int, w: Width)
    ensures WrapInt(n, w) == n <==> -(Modulus(w) as int) <= 2 * n < Modulus(w)
    ensures -(Modulus(w) as int) <= 2 * WrapInt(n, w) < Modulus(w)
  {
    match w case _ =>
  }

  lemma WrapUintExact(u: nat, w: Width)
    ensures WrapUint(u, w) == u <==> u < Modulus(w)
  {
    match w case _ =>
  }

  lemma IntRoundTrip(n: int, w: Width)
    ensures FromText(KInt(w), FormatInt(n)) == Some(VInt(n)) <==> Survives(KInt(w), VInt(n))
  {
    ParseIntOfFormat(n);
    WrapIntExact(n, w);
  }

  /** A single field: rendering and reading back returns the value exactly when it survives. In particular
      a number outside a narrow field's range is silently wrapped, and an empty list is not empty again. */
  lemma {:induction false} FieldRoundTrip(kind: Kind, v: Value)
    requires OfKind(kind, v)
    ensures FromText(kind, ToText(kind, v)) == Some(v) <==> Survives(kind, v)
  {
    match v
    case VInt(n) => IntRoundTrip(n, kind.w);
    case VUint(u) =>
      ParseUintOfDecimal(u);
      WrapUintExact(u, kind.w);
    case VStrings(parts) => ListRoundTrip(parts);
    case _ =>
  }

  /** Every leaf is tagged, exported, and named differently from the others. */
  ghost predicate Loadable(slots: seq<Slot>) {
    && (forall j :: 0 <= j < |slots| ==> slots[j].active)
    && (forall i, j :: 0 <= i < j < |slots| ==> slots[i].tag.env != slots[j].tag.env)
  }

  ghost predicate AllOfKind(slots: seq<Slot>, vals: seq<Value>) {
    |vals| == |slots| && forall j :: 0 <= j < |slots| ==> OfKind(slots[j].kind, vals[j])
  }

  /** The environment that sets every leaf. */
  ghost function Render(slots: seq<Slot>, vals: seq<Value>): Env
    requires AllOfKind(slots, vals)
  {
    if slots == [] then map[]
    else
      var n := |slots| - 1;
      Render(slots[..n], vals[..n])[slots[n].tag.env := ToText(slots[n].kind, vals[n])]
  }

  lemma {:induction false} Rendered(slots: seq<Slot>, vals: seq<Value>, j: nat)
    requires AllOfKind(slots, vals) && Loadable(slots) && j < |slots|
    ensures var env := Render(slots, vals);
            slots[j].tag.env in env && env[slots[j].tag.env] == ToText(slots[j].kind, vals[j])
  {
    var n := |slots| - 1;
    if j < n {
      Rendered(slots[..n], vals[..n], j);
      assert slots[j].tag.env != slots[n].tag.env;
    }
  }

  /** One leaf of a rendered struct is set, to its old value exactly when that survives. */
  lemma {:induction false} LeafRoundTrip(slots: seq<Slot>, vals: seq<Value>, j: nat)
    requires AllOfKind(slots, vals) && Loadable(slots) && j < |slots|
    ensures var o := Resolve(Render(slots, vals), slots[j]);
            && !o.Keep?
            && (o == Set(vals[j]) <==> Survives(slots[j].kind, vals[j]))
  {
    Rendered(slots, vals, j);
    FieldRoundTrip(slots[j].kind, vals[j]);
  }

  /** Round trip of whole structs: for any schema of distinct, tagged, exported leaves, loading what was
      rendered, over whatever was there before, succeeds with the same values exactly when every value
      survives; defaults and required marks play no part. */
  lemma {:induction false} StructRoundTrip(slots: seq<Slot>, vals: seq<Value>, before: seq<Value>)
    requires AllOfKind(slots, vals) && Loadable(slots) && |before| == |slots|
    ensures LoadSlots(Render(slots, vals), slots, before) == (vals, None)
            <==> forall j :: 0 <= j < |slots| ==> Survives(slots[j].kind, vals[j])
  {
    var env := Render(slots, vals);
    var (r, e) := LoadSlots(env, slots, before);
    LeafByLeaf(env, slots, before);
    forall j | 0 <= j < |slots|
      ensures !Resolve(env, slots[j]).Keep? && (Resolve(env, slots[j]) == Set(vals[j]) <==> Survives(slots[j].kind, vals[j]))
    {
      LeafRoundTrip(slots, vals, j);
    }
    if e == None && r == vals {
      forall j | 0 <= j < |slots| ensures Survives(slots[j].kind, vals[j]) {
        assert Resolve(env, slots[j]) == Set(r[j]);
      }
    }
  }
}
