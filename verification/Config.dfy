/**
 The environment loader of config.go. A struct type is a tree of fields; a struct value is a stretch of
 memory with one cell for each leaf, in declaration order, nested structs in place. loadStruct and
 setField write into that memory, and are proved against a left-to-right fold over the flat leaf list.
 */
module Config {
  import opened Prelude
  import opened Text

  datatype Width = W8 | W16 | W32 | W64

  /** Parsed kinds are durations, floats and TextUnmarshaler types: `parse` and `render` stand for their
      own code. */
  datatype Kind =
    | KString
    | KBool
    | KInt(w: Width)
    | KUint(w: Width)
    | KStrings
    | KParsed(parse: string -> Option<int>, render: int -> string)
    | KUnsupported

  datatype Value =
    | VString(s: string)
    | VBool(b: bool)
    | VInt(n: int)
    | VUint(u: nat)
    | VStrings(parts: seq<string>)
    | VParsed(token: int)
    | VOpaque

  /** `env` is empty for a field without the tag; envDefault may be absent, or present and empty. */
  datatype Tag = Tag(env: string, default: Option<string>, required: bool)

  /** `settable` is false for unexported fields. A struct field with an env tag is a Leaf: it is set as a
      whole, by its own parser or not at all. */
  datatype Field =
    | Leaf(settable: bool, tag: Tag, kind: Kind)
    | Nested(settable: bool, fields: seq<Field>)

  datatype Error = Missing(env: string) | Invalid(env: string)

  type Env = map<string, string>

  // ---- setField ----

  function Modulus(w: Width): nat {
    match w
    case W8 => 0x100
    case W16 => 0x1_0000
    case W32 => 0x1_0000_0000
    case W64 => TWO64
  }

  /** reflect's SetInt and SetUint keep the low bits of a narrower field. */
  function WrapInt(n: int, w: Width): int {
    var m := n % Modulus(w);
    if m >= Modulus(w) / 2 then m - Modulus(w) else m
  }

  function WrapUint(n: nat, w: Width): nat {
    n % Modulus(w)
  }

  /** The value `raw` gives a field, None if it does not parse. */
  function FromText(kind: Kind, raw: string): Option<Value> {
    match kind
    case KString => Some(VString(raw))
    case KBool => var b := ParseBool(raw); if b.Some? then Some(VBool(b.value)) else None
    case KInt(w) => var n := ParseInt(raw); if n.Some? then Some(VInt(WrapInt(n.value, w))) else None
    case KUint(w) => var n := ParseUint(raw); if n.Some? then Some(VUint(WrapUint(n.value, w))) else None
    case KStrings => Some(VStrings(TrimAll(Split(raw))))
    case KParsed(parse, _) => var t := parse(raw); if t.Some? then Some(VParsed(t.value)) else None
    case KUnsupported => None
  }

  method SetField(mem: array<Value>, at: nat, kind: Kind, raw: string) returns (ok: bool)
    requires at < mem.Length
    modifies mem
    ensures ok <==> FromText(kind, raw).Some?
    ensures mem[..] == if ok then old(mem[..])[at := FromText(kind, raw).value] else old(mem[..])
  {
    match kind {
      case KParsed(parse, _) =>
        var t := parse(raw);
        if t.None? {
          return false;
        }
        mem[at] := VParsed(t.value);
      case KString =>
        mem[at] := VString(raw);
      case KBool =>
        var b := ParseBool(raw);
        if b.None? {
          return false;
        }
        mem[at] := VBool(b.value);
      case KInt(w) =>
        var n := ParseInt(raw);
        if n.None? {
          return false;
        }
        mem[at] := VInt(WrapInt(n.value, w));
      case KUint(w) =>
        var n := ParseUint(raw);
        if n.None? {
          return false;
        }
        mem[at] := VUint(WrapUint(n.value, w));
      case KStrings =>
        var split := Split(raw);
        var parts := new string[|split|](i requires 0 <= i < |split| => split[i]);
        assert parts[..] == split;
        TrimInPlace(parts);
        mem[at] := VStrings(parts[..]);
      case KUnsupported =>
        return false;
    }
    ok := true;
  }

  // ---- The specification: a fold over leaves ----

  /** A leaf of the flattened schema; inactive if some field around it is unexported or it has no tag. */
  datatype Slot = Slot(active: bool, tag: Tag, kind: Kind)

  function FlattenField(f: Field, on: bool): seq<Slot>
    decreases f
  {
    match f
    case Leaf(settable, tag, kind) => [Slot(on && settable && tag.env != "", tag, kind)]
    case Nested(settable, fields) => Flatten(fields, on && settable)
  }

  function Flatten(fields: seq<Field>, on: bool): seq<Slot>
    decreases fields
  {
    if fields == [] then [] else FlattenField(fields[0], on) + Flatten(fields[1..], on)
  }

  datatype Outcome = Keep | Set(value: Value) | Fail(error: Error)

  /** What becomes of one leaf: set beats default beats the required error; otherwise it is kept. */
  function Resolve(env: Env, slot: Slot): Outcome {
    if !slot.active then Keep
    else
      var raw := if slot.tag.env in env then Some(env[slot.tag.env]) else slot.tag.default;
      if raw.None? then (if slot.tag.required then Fail(Missing(slot.tag.env)) else Keep)
      else
        var v := FromText(slot.kind, raw.value);
        if v.Some? then Set(v.value) else Fail(Invalid(slot.tag.env))
  }

  function Apply(o: Outcome, old_: Value): Value {
    if o.Set? then o.value else old_
  }

  /** Left to right, stopping at the first failure. */
  function LoadSlots(env: Env, slots: seq<Slot>, vals: seq<Value>): (r: (seq<Value>, Option<Error>))
    requires |slots| == |vals|
    ensures |r.0| == |vals|
  {
    if slots == [] then ([], None)
    else
      var o := Resolve(env, slots[0]);
      if o.Fail? then (vals, Some(o.error))
      else
        var (rest, e) := LoadSlots(env, slots[1..], vals[1..]);
        ([Apply(o, vals[0])] + rest, e)
  }

  // ---- loadStruct ----

  lemma {:induction false} FlattenConcat(a: seq<Field>, b: seq<Field>, on: bool)
    ensures Flatten(a + b, on) == Flatten(a, on) + Flatten(b, on)
  {
    if a == [] {
      assert a + b == b && [] + Flatten(b, on) == Flatten(b, on);
    } else {
      assert (a + b)[1..] == a[1..] + b;
      FlattenConcat(a[1..], b, on);
      assert FlattenField(a[0], on) + (Flatten(a[1..], on) + Flatten(b, on)) == Flatten(a, on) + Flatten(b, on);
    }
  }

  lemma {:induction false} LoadConcat(env: Env, a: seq<Slot>, b: seq<Slot>, x: seq<Value>, y: seq<Value>)
    requires |a| == |x| && |b| == |y|
    ensures LoadSlots(env, a + b, x + y)
            == var (r, e) := LoadSlots(env, a, x);
               if e.Some? then (r + y, e) else var (q, f) := LoadSlots(env, b, y); (r + q, f)
  {
    if a == [] {
      assert a + b == b && x + y == y && LoadSlots(env, a, x) == ([], None);
      assert LoadSlots(env, a + b, x + y) == LoadSlots(env, b, y);
      assert [] + LoadSlots(env, b, y).0 == LoadSlots(env, b, y).0;
    } else {
      assert (a + b)[1..] == a[1..] + b && (x + y)[1..] == x[1..] + y;
      LoadConcat(env, a[1..], b, x[1..], y);
      var v, r, q := Apply(Resolve(env, a[0]), x[0]), LoadSlots(env, a[1..], x[1..]).0, LoadSlots(env, b, y).0;
      assert [v] + (r + y) == ([v] + r) + y && [v] + (r + q) == ([v] + r) + q;
    }
  }

  lemma {:induction false} InactiveKept(env: Env, slots: seq<Slot>, vals: seq<Value>)
    requires |slots| == |vals| && forall j :: 0 <= j < |slots| ==> !slots[j].active
    ensures LoadSlots(env, slots, vals) == (vals, None)
  {
    if slots != [] {
      InactiveKept(env, slots[1..], vals[1..]);
      assert [vals[0]] + vals[1..] == vals;
    }
  }

  lemma {:induction false} OffIsInactive(fields: seq<Field>)
    ensures forall j :: 0 <= j < |Flatten(fields, false)| ==> !Flatten(fields, false)[j].active
    decreases fields
  {
    if fields != [] {
      var first, rest := FlattenField(fields[0], false), Flatten(fields[1..], false);
      if fields[0].Nested? { OffIsInactive(fields[0].fields); }
      OffIsInactive(fields[1..]);
      assert fields[0].Nested? ==> first == Flatten(fields[0].fields, false);
      assert Flatten(fields, false) == first + rest;
    }
  }

  /** `mem` holds `before`, with the stretch of `|vals|` cells at `base` replaced by `vals`. */
  ghost predicate Replaced(mem: seq<Value>, before: seq<Value>, base: nat, vals: seq<Value>) {
    && |mem| == |before| && base + |vals| <= |before|
    && mem[..base] == before[..base]
    && mem[base..base + |vals|] == vals
    && mem[base + |vals|..] == before[base + |vals|..]
  }

  /** The cells at `base` went from `before` to `mem` as loading `slots` demands, with error `err`. */
  ghost predicate Loaded(env: Env, slots: seq<Slot>, before: seq<Value>, mem: seq<Value>, base: nat, err: Option<Error>) {
    && base + |slots| <= |before|
    && var r := LoadSlots(env, slots, before[base..base + |slots|]);
       err == r.1 && Replaced(mem, before, base, r.0)
  }

  /** One field: a nested struct is loaded in place, an untagged or unexported one is passed over, and a
      leaf is set from the environment, else from its default, else is an error if required. */
  method LoadField(env: Env, field: Field, mem: array<Value>, at: nat) returns (err: Option<Error>)
    requires at + |FlattenField(field, true)| <= mem.Length
    modifies mem
    ensures Loaded(env, FlattenField(field, true), old(mem[..]), mem[..], at, err)
    decreases field
  {
    ghost var before, slots := mem[..], FlattenField(field, true);
    ghost var vals := before[at..at + |slots|];
    Unchanged(before, at, |slots|);
    if !field.settable {
      UnsettableKept(env, field, vals);
      return None;
    }
    match field {
      case Nested(_, fields) =>
        err := LoadStruct(env, fields, mem, at);
      case Leaf(_, tag, kind) =>
        OneSlot(env, slots[0], vals[0]);
        assert vals == [vals[0]];
        if tag.env == "" {
          return None;
        }
        var raw;
        if tag.env in env {
          raw := env[tag.env];
        } else if tag.default.Some? {
          raw := tag.default.value;
        } else if tag.required {
          return Some(Missing(tag.env));
        } else {
          return None;
        }
        var ok := SetField(mem, at, kind, raw);
        if !ok {
          return Some(Invalid(tag.env));
        }
        err := None;
    }
  }

  lemma Unchanged(before: seq<Value>, at: nat, n: nat)
    requires at + n <= |before|
    ensures Replaced(before, before, at, before[at..at + n])
  {
  }

  lemma OneSlot(env: Env, slot: Slot, v: Value)
    ensures LoadSlots(env, [slot], [v])
            == var o := Resolve(env, slot); if o.Fail? then ([v], Some(o.error)) else ([Apply(o, v)], None)
  {
    assert [slot][1..] == [] && [v][1..] == [];
    assert LoadSlots(env, [], []) == ([], None);
    assert [Apply(Resolve(env, slot), v)] + [] == [Apply(Resolve(env, slot), v)];
  }

  lemma UnsettableKept(env: Env, field: Field, vals: seq<Value>)
    requires !field.settable && |vals| == |FlattenField(field, true)|
    ensures LoadSlots(env, FlattenField(field, true), vals) == (vals, None)
  {
    if field.Nested? { OffIsInactive(field.fields); }
    InactiveKept(env, FlattenField(field, true), vals);
  }

  lemma NothingLoaded(env: Env, before: seq<Value>, base: nat)
    requires base <= |before|
    ensures Loaded(env, [], before, before, base, None)
  {
  }

  lemma ReplacedTwice(before: seq<Value>, mid: seq<Value>, after: seq<Value>, base: nat, x: seq<Value>, y: seq<Value>)
    requires Replaced(mid, before, base, x) && Replaced(after, mid, base + |x|, y)
    ensures Replaced(after, before, base, x + y)
    ensures mid[base + |x|..base + |x| + |y|] == before[base + |x|..base + |x| + |y|]
  {
    var at, end := base + |x|, base + |x| + |y|;
    assert mid[at..end] == mid[at..][..|y|] && before[at..end] == before[at..][..|y|];
    assert after[..base] == after[..at][..base] && mid[..base] == mid[..at][..base];
    assert after[base..end] == after[..at][base..] + after[at..end] && mid[base..at] == mid[..at][base..];
    assert mid[end..] == mid[at..][|y|..] && before[end..] == before[at..][|y|..];
  }

  lemma LoadStretch(env: Env, a: seq<Slot>, b: seq<Slot>, before: seq<Value>, base: nat)
    requires base + |a| + |b| <= |before|
    ensures var at, end := base + |a|, base + |a| + |b|;
            LoadSlots(env, a + b, before[base..end])
            == var (r, e) := LoadSlots(env, a, before[base..at]);
               if e.Some? then (r + before[at..end], e)
               else var (q, f) := LoadSlots(env, b, before[at..end]); (r + q, f)
  {
    var at, end := base + |a|, base + |a| + |b|;
    assert before[base..end] == before[base..at] + before[at..end];
    LoadConcat(env, a, b, before[base..at], before[at..end]);
  }

  /** Loading `a` and then `b` next to it is loading `a + b`. */
  lemma Adjacent(env: Env, a: seq<Slot>, b: seq<Slot>, before: seq<Value>, mid: seq<Value>, after: seq<Value>,
                 base: nat, err: Option<Error>)
    requires Loaded(env, a, before, mid, base, None) && Loaded(env, b, mid, after, base + |a|, err)
    ensures Loaded(env, a + b, before, after, base, err)
  {
    var at, end := base + |a|, base + |a| + |b|;
    ReplacedTwice(before, mid, after, base, LoadSlots(env, a, before[base..at]).0, LoadSlots(env, b, mid[at..end]).0);
    LoadStretch(env, a, b, before, base);
  }

  /** After a failure the remaining leaves are as before. */
  lemma RestUntouched(env: Env, a: seq<Slot>, b: seq<Slot>, before: seq<Value>, after: seq<Value>, base: nat, err: Option<Error>)
    requires Loaded(env, a, before, after, base, err) && err.Some? && base + |a| + |b| <= |before|
    ensures Loaded(env, a + b, before, after, base, err)
  {
    var at, end := base + |a|, base + |a| + |b|;
    LoadStretch(env, a, b, before, base);
    assert after[base..end] == after[base..at] + after[at..][..|b|] && before[at..end] == before[at..][..|b|];
    assert after[end..] == after[at..][|b|..] && before[end..] == before[at..][|b|..];
  }

  /** loadStruct: however the struct is nested, its cells end up as the fold over its flat leaf list says,
      the error is the fold's, and no other cell changes. */
  method LoadStruct(env: Env, fields: seq<Field>, mem: array<Value>, base: nat) returns (err: Option<Error>)
    requires base + |Flatten(fields, true)| <= mem.Length
    modifies mem
    ensures Loaded(env, Flatten(fields, true), old(mem[..]), mem[..], base, err)
    decreases fields
  {
    ghost var before, done := mem[..], [];
    var at := base;
    NothingLoaded(env, before, base);
    for i := 0 to |fields|
      invariant done + Flatten(fields[i..], true) == Flatten(fields, true)
      invariant at == base + |done| && Loaded(env, done, before, mem[..], base, None)
    {
      ghost var mine, rest := FlattenField(fields[i], true), Flatten(fields[i + 1..], true);
      assert fields[i..][0] == fields[i] && fields[i..][1..] == fields[i + 1..];
      assert done + mine + rest == Flatten(fields, true);
      ghost var mid := mem[..];
      err := LoadField(env, fields[i], mem, at);
      Adjacent(env, done, mine, before, mid, mem[..], base, err);
      if err.Some? {
        RestUntouched(env, done + mine, rest, before, mem[..], base, err);
        return;
      }
      at := at + |FlattenField(fields[i], true)|;
      done := done + mine;
    }
    assert done == Flatten(fields, true);
    err := None;
  }

  // ---- Defaults ----

  /** The environment with each active leaf's default for its key, where that is unset. */
  ghost function WithDefaults(env: Env, slots: seq<Slot>): Env {
    if slots == [] then env
    else
      var before, slot := WithDefaults(env, slots[..|slots| - 1]), slots[|slots| - 1];
      if slot.active && slot.tag.env !in env && slot.tag.default.Some?
      then before[slot.tag.env := slot.tag.default.value] else before
  }

  ghost predicate DistinctKeys(slots: seq<Slot>) {
    forall i, j :: 0 <= i < j < |slots| && slots[i].active && slots[j].active ==> slots[i].tag.env != slots[j].tag.env
  }

  lemma {:induction false} DefaultOfKey(env: Env, slots: seq<Slot>, key: string)
    requires DistinctKeys(slots)
    ensures var e := WithDefaults(env, slots);
            && (key in env ==> key in e && e[key] == env[key])
            && (forall j :: 0 <= j < |slots| && slots[j].active && slots[j].tag.env == key && key !in env ==>
                  if slots[j].tag.default.Some? then key in e && e[key] == slots[j].tag.default.value else key !in e)
            && ((forall j :: 0 <= j < |slots| && slots[j].active ==> slots[j].tag.env != key) && key !in env ==> key !in e)
  {
    if slots != [] {
      DefaultOfKey(env, slots[..|slots| - 1], key);
    }
  }

  lemma {:induction false} SameResolution(env: Env, other: Env, slots: seq<Slot>, vals: seq<Value>)
    requires |slots| == |vals| && forall j :: 0 <= j < |slots| ==> Resolve(env, slots[j]) == Resolve(other, slots[j])
    ensures LoadSlots(env, slots, vals) == LoadSlots(other, slots, vals)
  {
    if slots != [] {
      assert Resolve(env, slots[0]) == Resolve(other, slots[0]);
      forall j | 0 <= j < |slots| - 1 ensures Resolve(env, slots[1..][j]) == Resolve(other, slots[1..][j]) {
        assert slots[1..][j] == slots[j + 1];
      }
      SameResolution(env, other, slots[1..], vals[1..]);
    }
  }

  /** A default is as good as the variable set to it: loading is loading in the environment extended by the defaults
      of the unset keys. */
  lemma DefaultsStandIn(env: Env, slots: seq<Slot>, vals: seq<Value>)
    requires |slots| == |vals| && DistinctKeys(slots)
    ensures LoadSlots(env, slots, vals) == LoadSlots(WithDefaults(env, slots), slots, vals)
  {
    forall j | 0 <= j < |slots| ensures Resolve(env, slots[j]) == Resolve(WithDefaults(env, slots), slots[j]) {
      DefaultOfKey(env, slots, slots[j].tag.env);
    }
    SameResolution(env, WithDefaults(env, slots), slots, vals);
  }

  // ---- Load ----

  function Zero(kind: Kind): Value {
    match kind
    case KString => VString("")
    case KBool => VBool(false)
    case KInt(_) => VInt(0)
    case KUint(_) => VUint(0)
    case KStrings => VStrings([])
    case KParsed(_, _) => VParsed(0)
    case KUnsupported => VOpaque
  }

  function Zeros(slots: seq<Slot>): (r: seq<Value>)
    ensures |r| == |slots| && forall j :: 0 <= j < |r| ==> r[j] == Zero(slots[j].kind)
  {
    seq(|slots|, j requires 0 <= j < |slots| => Zero(slots[j].kind))
  }

  /** Load: a zero struct, loaded, which is the same as loading it with every default of an unset variable put into
      the environment. */
  method Load(env: Env, fields: seq<Field>) returns (cfg: seq<Value>, err: Option<Error>)
    ensures var slots := Flatten(fields, true); (cfg, err) == LoadSlots(env, slots, Zeros(slots))
    ensures var slots := Flatten(fields, true);
            DistinctKeys(slots) ==> (cfg, err) == LoadSlots(WithDefaults(env, slots), slots, Zeros(slots))
  {
    var slots := Flatten(fields, true);
    if DistinctKeys(slots) { DefaultsStandIn(env, slots, Zeros(slots)); }
    var zeros := Zeros(slots);
    var mem := new Value[|slots|](i requires 0 <= i < |slots| => zeros[i]);
    assert mem[..] == zeros && zeros[0..|slots|] == zeros;
    err := LoadStruct(env, fields, mem, 0);
    cfg := mem[..];
    assert cfg[0..|slots|] == cfg;
  }
}
