/** Reading claims out of a decoded token: claims.go, roles.go and the audience test of
    introspection_validator.go. The methods are the source's loops; each is proved against a function. */
module Claims {
  import opened Prelude

  /** A decoded JSON value. Numbers are left as text. */
  datatype Json =
    | Null
    | Bool(b: bool)
    | Number(text: string)
    | Str(s: string)
    | Arr(items: seq<Json>)
    | Obj(fields: map<string, Json>)

  type Raw = map<string, Json>

  /** The strings of an array, in order; anything else in it is passed over. */
  function StringsIn(items: seq<Json>): seq<string> {
    if items == [] then []
    else
      var last := items[|items| - 1];
      StringsIn(items[..|items| - 1]) + if last.Str? then [last.s] else []
  }

  lemma {:induction false} StringsInConcat(a: seq<Json>, b: seq<Json>)
    ensures StringsIn(a + b) == StringsIn(a) + StringsIn(b)
  {
    if b == [] {
      assert a + b == a && StringsIn(a) + [] == StringsIn(a);
    } else {
      var n := |b| - 1;
      assert (a + b)[..|a + b| - 1] == a + b[..n];
      StringsInConcat(a, b[..n]);
    }
  }

  /** An array of strings reads as just these, in order. */
  lemma {:induction false} AllStrings(strings: seq<string>)
    ensures StringsIn(seq(|strings|, i requires 0 <= i < |strings| => Str(strings[i]))) == strings
  {
    var items := seq(|strings|, i requires 0 <= i < |strings| => Str(strings[i]));
    if strings != [] {
      var n := |strings| - 1;
      AllStrings(strings[..n]);
      assert items[..n] == seq(n, i requires 0 <= i < n => Str(strings[..n][i]));
      assert strings == strings[..n] + [strings[n]];
    }
  }

  /** Anything else in an array is passed over. */
  lemma OthersPassedOver(a: seq<Json>, x: Json, b: seq<Json>)
    requires !x.Str?
    ensures StringsIn(a + [x] + b) == StringsIn(a + b)
  {
    StringsInConcat(a + [x], b);
    StringsInConcat(a, [x]);
    StringsInConcat(a, b);
    assert [x][..0] == [] && StringsIn([x]) == [];
  }

  /** A claim as a list: an array's strings, a single string, and otherwise nil. A missing key reads as
      nil, like Null. */
  function AsSlice(v: Option<Json>): Option<seq<string>> {
    match v
    case Some(Arr(items)) => Some(StringsIn(items))
    case Some(Str(s)) => Some([s])
    case _ => None
  }

  function Lookup(m: Raw, key: string): Option<Json> {
    if key in m then Some(m[key]) else None
  }

  method CollectStrings(items: seq<Json>) returns (out: seq<string>)
    ensures out == StringsIn(items)
  {
    out := [];
    for i := 0 to |items|
      invariant out == StringsIn(items[..i])
    {
      assert items[..i + 1][..i] == items[..i];
      if items[i].Str? {
        out := out + [items[i].s];
      }
    }
    assert items[..|items|] == items;
  }

  method StringSlice(raw: Raw, key: string) returns (out: Option<seq<string>>)
    ensures out == AsSlice(Lookup(raw, key))
    ensures key in raw && raw[key].Str? ==> out == Some([raw[key].s])
    ensures key in raw && raw[key].Arr? ==> out == Some(StringsIn(raw[key].items))
    ensures key !in raw || (!raw[key].Str? && !raw[key].Arr?) ==> out == None
  {
    match Lookup(raw, key) {
      case Some(Arr(items)) =>
        var strings := CollectStrings(items);
        out := Some(strings);
      case Some(Str(s)) => out := Some([s]);
      case _ => out := None;
    }
  }

  /** The value at the end of a path of object keys, if there is one. */
  function Walk(v: Json, path: seq<string>): Option<Json> {
    if path == [] then Some(v)
    else if !v.Obj? || path[0] !in v.fields then None
    else Walk(v.fields[path[0]], path[1..])
  }

  function NestedSlice(raw: Raw, path: seq<string>): Option<seq<string>> {
    if path == [] then None else AsSlice(Walk(Obj(raw), path))
  }

  lemma {:induction false} WalkConcat(v: Json, p: seq<string>, q: seq<string>)
    ensures Walk(v, p + q) == if Walk(v, p).None? then None else Walk(Walk(v, p).value, q)
  {
    if p == [] {
      assert p + q == q;
    } else {
      assert (p + q)[1..] == p[1..] + q;
      if v.Obj? && p[0] in v.fields { WalkConcat(v.fields[p[0]], p[1..], q); }
    }
  }

  method NestedStringSlice(raw: Raw, path: seq<string>) returns (out: Option<seq<string>>)
    ensures out == NestedSlice(raw, path)
  {
    if path == [] {
      return None;
    }
    var cur := Obj(raw);
    var n := |path| - 1;
    for i := 0 to n
      invariant Walk(Obj(raw), path[..i]) == Some(cur)
      invariant Walk(Obj(raw), path) == Walk(cur, path[i..])
    {
      assert path[i..][0] == path[i] && path[i..][1..] == path[i + 1..];
      if !cur.Obj? || path[i] !in cur.fields {
        return None;
      }
      WalkConcat(Obj(raw), path[..i], [path[i]]);
      assert path[..i + 1] == path[..i] + [path[i]];
      assert Walk(cur, [path[i]]) == Some(cur.fields[path[i]]) by { assert [path[i]][1..] == []; }
      cur := cur.fields[path[i]];
    }
    assert path[n..] == [path[n]] && [path[n]][1..] == [];
    if !cur.Obj? {
      return None;
    }
    out := StringSlice(cur.fields, path[n]);
  }

  /** Paths compose: reading `p ++ q` is reading `q` in the object at `p`, and nil if `p` does not lead to
      an object. */
  lemma NestedSliceComposes(raw: Raw, p: seq<string>, q: seq<string>)
    requires q != []
    ensures NestedSlice(raw, p + q)
            == match Walk(Obj(raw), p)
               case Some(Obj(inner)) => NestedSlice(inner, q)
               case _ => None
  {
    WalkConcat(Obj(raw), p, q);
  }

  /** A path of one key is the flat claim. */
  lemma NestedSliceOfOneKey(raw: Raw, key: string)
    ensures NestedSlice(raw, [key]) == AsSlice(Lookup(raw, key))
  {
    assert [key][1..] == [];
    if key in raw { assert Walk(raw[key], []) == Some(raw[key]); }
  }

  /** A longer path steps into the object at its first key, and finds nothing if there is none. */
  lemma NestedSliceStepsIn(raw: Raw, key: string, q: seq<string>)
    requires q != []
    ensures NestedSlice(raw, [key] + q)
            == if key in raw && raw[key].Obj? then NestedSlice(raw[key].fields, q) else None
  {
    assert ([key] + q)[0] == key && ([key] + q)[1..] == q;
    assert Walk(Obj(raw), [key] + q) == if key in raw then Walk(raw[key], q) else None;
    if key in raw && raw[key].Obj? { assert raw[key] == Obj(raw[key].fields); }
  }

  // ---- Audience ----

  lemma {:induction false} StringsInHas(items: seq<Json>, w: string)
    ensures w in StringsIn(items) <==> Str(w) in items
  {
    if items != [] {
      var n := |items| - 1;
      StringsInHas(items[..n], w);
      assert items == items[..n] + [items[n]];
    }
  }

  /** audienceContains agrees with the claim read as a list: `w` is an audience exactly when it is in
      StringSlice("aud"). */
  method AudienceContains(aud: Option<Json>, w: string) returns (found: bool)
    ensures found <==> AsSlice(aud).Some? && w in AsSlice(aud).value
    ensures found <==> aud == Some(Str(w)) || (aud.Some? && aud.value.Arr? && Str(w) in aud.value.items)
  {
    match aud {
      case Some(Str(s)) => return s == w;
      case Some(Arr(items)) =>
        StringsInHas(items, w);
        for i := 0 to |items|
          invariant Str(w) !in items[..i]
        {
          if items[i].Str? && items[i].s == w {
            return true;
          }
        }
        assert items[..|items|] == items;
        found := false;
      case _ => found := false;
    }
  }

  // ---- Roles ----

  /** Some wanted role is held, or none is wanted. */
  predicate HasAny(have: seq<string>, want: seq<string>) {
    want == [] || exists w :: w in want && w in have
  }

  method HasAnyRole(have: seq<string>, want: seq<string>) returns (ok: bool)
    ensures ok <==> HasAny(have, want)
    ensures want == [] ==> ok
    ensures want != [] ==> (ok <==> exists w :: w in want && w in have)
  {
    if want == [] {
      return true;
    }
    var roles: set<string> := {};
    for i := 0 to |have|
      invariant forall r :: r in roles <==> r in have[..i]
    {
      assert have[..i + 1] == have[..i] + [have[i]];
      roles := roles + {have[i]};
    }
    assert have[..|have|] == have;
    for i := 0 to |want|
      invariant forall w :: w in want[..i] ==> w !in have
    {
      assert want[..i + 1] == want[..i] + [want[i]];
      if want[i] in roles {
        assert want[i] in want && want[i] in have;
        return true;
      }
    }
    assert want[..|want|] == want;
    ok := false;
  }

  predicate NonEmpty(s: Option<seq<string>>) {
    s.Some? && s.value != []
  }

  /** DefaultRolesExtractor: realm_access.roles, else roles, else groups, whichever first has anything. */
  method DefaultRoles(raw: Raw) returns (roles: seq<string>)
    ensures var realm, flat, groups :=
              NestedSlice(raw, ["realm_access", "roles"]), NestedSlice(raw, ["roles"]), NestedSlice(raw, ["groups"]);
            && (realm.Some? && realm.value != [] ==> roles == realm.value)
            && ((realm == None || realm == Some([])) && flat.Some? && flat.value != [] ==> roles == flat.value)
            && ((realm == None || realm == Some([])) && (flat == None || flat == Some([])) ==>
                  roles == if groups.Some? then groups.value else [])
  {
    NestedSliceOfOneKey(raw, "roles");
    NestedSliceOfOneKey(raw, "groups");
    var realm := NestedStringSlice(raw, ["realm_access", "roles"]);
    if NonEmpty(realm) {
      return realm.value;
    }
    var flat := StringSlice(raw, "roles");
    if NonEmpty(flat) {
      return flat.value;
    }
    var groups := StringSlice(raw, "groups");
    if NonEmpty(groups) {
      return groups.value;
    }
    roles := [];
  }
}
