/** The configuration tree: dot-path lookup, path-creating update, and the
    role-prompt fallback. The tree is an in-memory `Value`; loading it from YAML
    is not modelled. Where Python would raise on an unexpected shape, the result
    is an `Err` carrying the exception class. */
module Config {
  import opened Wrappers
  import opened Values
  import PyStr

  datatype PyError = TypeError | AttributeError | IndexError

  const RolesPath: string := "context_awareness.roles"
  const DefaultRolePath: string := "context_awareness.default_role"
  const DefaultRoleName: string := "general"
  /** The prompt when the default role's entry has no `system_prompt`. */
  const DefaultRolePrompt: string := "You are a helpful assistant."
  /** The prompt of last resort. */
  const FallbackPrompt: string := "You are a helpful AI assistant."

  /** `x` is what the key path names in `v`: each step meets a dictionary that
      holds the key with a value other than `None`, and the last step reaches `x`.
      Falsy values such as `0`, `False` and `""` resolve like any other. */
  predicate Resolves(v: Value, keys: seq<string>, x: Value)
    decreases |keys|
  {
    if keys == [] then x == v
    else v.Dict? && keys[0] in v.entries && v.entries[keys[0]] != Null
         && Resolves(v.entries[keys[0]], keys[1..], x)
  }

  /** The loop of `get`: each step needs a dictionary and a present, non-`None` value.
      The answer is the value the path resolves to, or the default when it resolves
      to nothing. */
  function Lookup(v: Value, keys: seq<string>, default: Value): (r: Value)
    ensures Resolves(v, keys, r) || (r == default && forall x :: !Resolves(v, keys, x))
    ensures |keys| >= 1 ==> r == default || r != Null
    decreases |keys|
  {
    if keys == [] then v
    else if !v.Dict? || keys[0] !in v.entries || v.entries[keys[0]] == Null then default
    else Lookup(v.entries[keys[0]], keys[1..], default)
  }

  /** `get`: the value at a dot-separated path, or the default when the path does
      not resolve. */
  function Get(data: Value, path: string, default: Value): (r: Value)
    ensures Resolves(data, PyStr.Split(path, '.'), r)
            || (r == default && forall x :: !Resolves(data, PyStr.Split(path, '.'), x))
    ensures r == default || r != Null
  {
    Lookup(data, PyStr.Split(path, '.'), default)
  }

  /** A path resolves to at most one value. */
  lemma {:induction false} ResolvesUnique(v: Value, keys: seq<string>, x: Value, y: Value)
    requires Resolves(v, keys, x) && Resolves(v, keys, y)
    ensures x == y
    decreases |keys|
  {
    if keys != [] {
      ResolvesUnique(v.entries[keys[0]], keys[1..], x, y);
    }
  }

  /** A path that resolves to nothing reads as the default. */
  lemma LookupUnresolved(v: Value, keys: seq<string>, d: Value)
    requires forall x :: !Resolves(v, keys, x)
    ensures Lookup(v, keys, d) == d
  {
  }

  /** The walk answers with the resolved value whatever the default. */
  lemma LookupResolved(v: Value, keys: seq<string>, x: Value, d: Value)
    requires Resolves(v, keys, x)
    ensures Lookup(v, keys, d) == x
  {
    var r := Lookup(v, keys, d);
    if Resolves(v, keys, r) {
      ResolvesUnique(v, keys, x, r);
    }
  }

  /** The default is only ever the answer for a path that does not resolve: when
      one default is not the answer, every other default gives the same answer. */
  lemma {:induction false} LookupDefaultOnlyOnFailure(v: Value, keys: seq<string>, d1: Value, d2: Value)
    requires Lookup(v, keys, d1) != d1
    ensures Lookup(v, keys, d2) == Lookup(v, keys, d1)
    decreases |keys|
  {
    if keys != [] && v.Dict? && keys[0] in v.entries && v.entries[keys[0]] != Null {
      LookupDefaultOnlyOnFailure(v.entries[keys[0]], keys[1..], d1, d2);
    }
  }

  /** The paths `set` can walk: every existing value along the way is a dictionary. */
  predicate Settable(v: Value, keys: seq<string>)
    decreases |keys|
  {
    && v.Dict?
    && (|keys| <= 1 || keys[0] !in v.entries || Settable(v.entries[keys[0]], keys[1..]))
  }

  /** The loop of `set`: `setdefault(k, {})` down the path, then assign the last key.
      A non-dictionary on the way raises `AttributeError` (no `setdefault`) and a
      non-dictionary holder of the last key raises `TypeError`; neither has changed
      anything yet. */
  function Store(v: Value, keys: seq<string>, x: Value): (r: Result<Value, PyError>)
    requires |keys| >= 1
    ensures r.Ok? <==> Settable(v, keys)
    ensures r.Ok? ==> r.value.Dict? && r.value.entries.Keys == v.entries.Keys + {keys[0]}
    decreases |keys|
  {
    if !v.Dict? then Err(if |keys| == 1 then TypeError else AttributeError)
    else if |keys| == 1 then Ok(Dict(v.entries[keys[0] := x]))
    else
      var child := if keys[0] in v.entries then v.entries[keys[0]] else Dict(map[]);
      assert keys[0] !in v.entries ==> Settable(child, keys[1..]);
      match Store(child, keys[1..], x)
      case Ok(c) => Ok(Dict(v.entries[keys[0] := c]))
      case Err(e) => Err(e)
  }

  /** `set`: store a value at a dot-separated path, creating missing dictionaries. */
  function Set(data: Value, path: string, x: Value): (r: Result<Value, PyError>)
    ensures r.Ok? <==> Settable(data, PyStr.Split(path, '.'))
  {
    Store(data, PyStr.Split(path, '.'), x)
  }

  /** What was stored is what is read back, unless it is `None`, which reads as missing. */
  lemma {:induction false} StoreThenLookup(v: Value, keys: seq<string>, x: Value, d: Value)
    requires |keys| >= 1 && Settable(v, keys)
    ensures Lookup(Store(v, keys, x).value, keys, d) == if x == Null then d else x
    decreases |keys|
  {
    if |keys| > 1 {
      StoreThenLookup(ChildOf(v, keys[0]), keys[1..], x, d);
    }
  }

  /** Two key paths that part ways before either ends. */
  predicate Diverge(p: seq<string>, q: seq<string>) {
    exists i :: 0 <= i < |p| && i < |q| && p[i] != q[i]
  }

  /** Looking up a missing key in an empty dictionary gives the default. */
  lemma EmptyLookup(keys: seq<string>, d: Value)
    requires |keys| >= 1
    ensures Lookup(Dict(map[]), keys, d) == d
  {
  }

  /** The dictionary `set` writes into at the first key: the existing one, or a new, empty one. */
  function ChildOf(v: Value, k: string): Value
    requires v.Dict?
  {
    if k in v.entries then v.entries[k] else Dict(map[])
  }

  /** One level of `set`: only the first key's entry changes, to the result of the
      rest of the walk. */
  lemma StoreUnfold(v: Value, keys: seq<string>, x: Value)
    requires |keys| >= 1 && Settable(v, keys)
    ensures Store(v, keys, x).value.entries ==
              v.entries[keys[0] := if |keys| == 1 then x else Store(ChildOf(v, keys[0]), keys[1..], x).value]
  {
  }

  /** `set` leaves every path that parts from the stored one as it was. */
  lemma {:induction false} StoreKeepsOthers(v: Value, keys: seq<string>, x: Value, q: seq<string>, d: Value)
    requires |keys| >= 1 && Settable(v, keys)
    requires Diverge(keys, q)
    ensures Lookup(Store(v, keys, x).value, q, d) == Lookup(v, q, d)
    decreases |keys|
  {
    var i :| 0 <= i < |keys| && i < |q| && keys[i] != q[i];
    StoreUnfold(v, keys, x);
    if q[0] == keys[0] {
      assert i >= 1 && |keys| > 1;
      var child := ChildOf(v, keys[0]);
      assert keys[1..][i - 1] != q[1..][i - 1];
      StoreKeepsOthers(child, keys[1..], x, q[1..], d);
      if keys[0] !in v.entries {
        EmptyLookup(q[1..], d);
      }
    }
  }

  /** `set` followed by `get` on the same path reads back any non-`None` value. */
  lemma SetThenGet(data: Value, path: string, x: Value, d: Value)
    requires Settable(data, PyStr.Split(path, '.'))
    requires x != Null
    ensures Set(data, path, x).Ok?
    ensures Get(Set(data, path, x).value, path, d) == x
  {
    StoreThenLookup(data, PyStr.Split(path, '.'), x, d);
  }

  /** Python's `key in container` on the configuration shapes: key membership for a
      dictionary (an unhashable key raises), element membership for a list,
      substring for a string, and an error for anything else. */
  function In(key: Value, container: Value): (r: Result<bool, PyError>)
    ensures container.Dict? && key.Str? ==> r == Ok(key.s in container.entries)
    ensures container.Dict? && r == Ok(true) ==> key.Str?
    ensures container.List? ==> r == Ok(key in container.items)
    ensures container.Str? && r == Ok(true) ==> key.Str?
  {
    match container
    case Dict(m) =>
      if key.Str? then Ok(key.s in m)
      else if key.List? || key.Dict? then Err(TypeError)
      else Ok(false)
    case List(xs) => Ok(key in xs)
    case Str(s) => if key.Str? then Ok(PyStr.Contains(s, key.s)) else Err(TypeError)
    case _ => Err(TypeError)
  }

  /** `entry.get('system_prompt', fallback)`: only dictionaries have `get`. */
  function PromptOf(entry: Value, fallback: string): (r: Result<Value, PyError>)
    ensures entry.Dict? && "system_prompt" in entry.entries ==> r == Ok(entry.entries["system_prompt"])
    ensures entry.Dict? && "system_prompt" !in entry.entries ==> r == Ok(Str(fallback))
    ensures !entry.Dict? ==> r == Err(AttributeError)
  {
    match entry
    case Dict(m) => Ok(if "system_prompt" in m then m["system_prompt"] else Str(fallback))
    case _ => Err(AttributeError)
  }

  /** The integer a subscript denotes: `bool` is a subclass of `int`, so `True`
      indexes position 1 and `False` position 0; other values are no index. */
  function AsIndex(v: Value): (r: Option<int>)
    ensures v.Int? ==> r == Some(v.i)
    ensures v.Bool? ==> r == Some(if v.b then 1 else 0)
    ensures !v.Int? && !v.Bool? ==> r == None
  {
    match v
    case Int(i) => Some(i)
    case Bool(b) => Some(if b then 1 else 0)
    case _ => None
  }

  /** Python's `xs[i]`: a negative index counts from the end, and an index outside
      the list raises `IndexError`. */
  function ListItem(xs: seq<Value>, i: int): (r: Result<Value, PyError>)
    ensures r.Ok? <==> -|xs| <= i < |xs|
    ensures r.Ok? ==> r.value in xs
    ensures r.Err? ==> r.error == IndexError
  {
    if 0 <= i < |xs| then Ok(xs[i])
    else if -|xs| <= i < 0 then Ok(xs[|xs| + i])
    else Err(IndexError)
  }

  /** Counting from the end reaches the same element as counting from the start. */
  lemma ListItemFromEnd(xs: seq<Value>, i: int)
    requires 0 <= i < |xs|
    ensures ListItem(xs, i - |xs|) == ListItem(xs, i) == Ok(xs[i])
  {
  }

  /** The keys of `RolesPath` and `DefaultRolePath`. */
  const RolesKeys: seq<string> := ["context_awareness", "roles"]
  const DefaultRoleKeys: seq<string> := ["context_awareness", "default_role"]

  /** The roles table: `get('context_awareness.roles', {})`. */
  function Roles(data: Value): Value {
    Lookup(data, RolesKeys, Dict(map[]))
  }

  /** The configured default role: `get('context_awareness.default_role', 'general')`. */
  function DefaultRole(data: Value): Value {
    Lookup(data, DefaultRoleKeys, Str(DefaultRoleName))
  }

  /** A path of two dot-free keys splits into those keys. */
  lemma SplitTwo(a: string, b: string)
    requires '.' !in a && '.' !in b
    ensures PyStr.Split(a + "." + b, '.') == [a, b]
  {
    PyStr.SplitAfterPiece(a, '.', b);
    PyStr.SplitNoSeparator(b, '.');
  }

  /** `Roles` is the `get` of `RolesPath`. */
  lemma RolesIsGet(data: Value)
    ensures Roles(data) == Get(data, RolesPath, Dict(map[]))
  {
    var a, b := "context_awareness", "roles";
    assert forall i :: 0 <= i < |a| ==> a[i] != '.';
    assert forall i :: 0 <= i < |b| ==> b[i] != '.';
    assert RolesPath == a + "." + b;
    SplitTwo(a, b);
  }

  /** `DefaultRole` is the `get` of `DefaultRolePath`. */
  lemma DefaultRoleIsGet(data: Value)
    ensures DefaultRole(data) == Get(data, DefaultRolePath, Str(DefaultRoleName))
  {
    var a, b := "context_awareness", "default_role";
    assert forall i :: 0 <= i < |a| ==> a[i] != '.';
    assert forall i :: 0 <= i < |b| ==> b[i] != '.';
    assert DefaultRolePath == a + "." + b;
    SplitTwo(a, b);
  }

  /** `get_role_prompt`: the role's own prompt, else the default role's, else a fixed text. */
  function GetRolePrompt(data: Value, role: string): (r: Result<Value, PyError>)
    // 1. a known role answers with its own prompt, or "" when it has none
    ensures Roles(data).Dict? && role in Roles(data).entries ==>
              r == PromptOf(Roles(data).entries[role], "")
    // 2. an unknown role falls back to a different, known default role
    ensures Roles(data).Dict? && role !in Roles(data).entries
            && DefaultRole(data).Str? && DefaultRole(data).s != role && DefaultRole(data).s in Roles(data).entries ==>
              r == PromptOf(Roles(data).entries[DefaultRole(data).s], DefaultRolePrompt)
    // 3. otherwise the fixed prompt
    ensures Roles(data).Dict? && role !in Roles(data).entries
            && (DefaultRole(data) == Str(role)
                || (DefaultRole(data).Str? && DefaultRole(data).s !in Roles(data).entries)
                || DefaultRole(data).Int? || DefaultRole(data).Bool?) ==>
              r == Ok(Str(FallbackPrompt))
    // an unhashable default role cannot be looked up in the table
    ensures (Roles(data).Dict? && role !in Roles(data).entries
             && (DefaultRole(data).List? || DefaultRole(data).Dict?)) ==> r == Err(TypeError)
    // a list table: a string role found in it is no index
    ensures Roles(data).List? && Str(role) in Roles(data).items ==> r == Err(TypeError)
    // a list table without the role: the fixed prompt unless a different default role is in it
    ensures Roles(data).List? && Str(role) !in Roles(data).items
            && (DefaultRole(data) == Str(role) || DefaultRole(data) !in Roles(data).items) ==>
              r == Ok(Str(FallbackPrompt))
    // a default role found in a list table must be an index
    ensures Roles(data).List? && Str(role) !in Roles(data).items
            && DefaultRole(data) != Str(role) && DefaultRole(data) in Roles(data).items
            && AsIndex(DefaultRole(data)).None? ==>
              r == Err(TypeError)
    // an integer or boolean default role found in a list table indexes it
    ensures Roles(data).List? && Str(role) !in Roles(data).items
            && DefaultRole(data) != Str(role) && DefaultRole(data) in Roles(data).items
            && AsIndex(DefaultRole(data)).Some? ==>
              var item := ListItem(Roles(data).items, AsIndex(DefaultRole(data)).value);
              (item.Ok? ==> r == PromptOf(item.value, DefaultRolePrompt))
              && (item.Err? ==> r == Err(IndexError))
    // a string table either raises or yields the fixed prompt
    ensures Roles(data).Str? ==> r == Err(TypeError) || r == Ok(Str(FallbackPrompt))
    // a table that is no container raises
    ensures !Roles(data).Dict? && !Roles(data).List? && !Roles(data).Str? ==> r == Err(TypeError)
  {
    var roles := Roles(data);
    match In(Str(role), roles)
    case Err(e) => Err(e)
    case Ok(known) =>
      if known then
        if roles.Dict? then PromptOf(roles.entries[role], "") else Err(TypeError)
      else
        var dflt := DefaultRole(data);
        if Str(role) == dflt then Ok(Str(FallbackPrompt))
        else match In(dflt, roles)
          case Err(e) => Err(e)
          case Ok(defaultKnown) =>
            if !defaultKnown then Ok(Str(FallbackPrompt))
            else match roles
              case Dict(m) => PromptOf(m[dflt.s], DefaultRolePrompt)
              case List(xs) =>
                (match AsIndex(dflt)
                 case None => Err(TypeError)
                 case Some(i) =>
                   match ListItem(xs, i)
                   case Err(e) => Err(e)
                   case Ok(entry) => PromptOf(entry, DefaultRolePrompt))
              case _ => Err(TypeError)
  }

  /** A list table holding an integer default role indexes it: with
      `[1, {"system_prompt": "hi"}]` and default role `1`, position 1 answers. */
  lemma ListTableIndexed()
    ensures GetRolePrompt(RoleConfig(List([Int(1), Dict(map["system_prompt" := Str("hi")])]), Int(1)), "x")
              == Ok(Str("hi"))
  {
    var entry := Dict(map["system_prompt" := Str("hi")]);
    var xs := [Int(1), entry];
    RoleConfigReads(List(xs), Int(1));
    assert Str("x") !in xs && Int(1) in xs;
    assert ListItem(xs, 1) == Ok(entry);
  }

  /** An integer default role past the end of a list table raises `IndexError`. */
  lemma ListTableOutOfRange()
    ensures GetRolePrompt(RoleConfig(List([Int(5)]), Int(5)), "x") == Err(IndexError)
  {
    RoleConfigReads(List([Int(5)]), Int(5));
    assert Str("x") !in [Int(5)] && Int(5) in [Int(5)];
  }

  /** An integer default role indexing a non-dictionary entry raises `AttributeError`. */
  lemma ListTableNoGet()
    ensures GetRolePrompt(RoleConfig(List([Int(0)]), Int(0)), "x") == Err(AttributeError)
  {
    RoleConfigReads(List([Int(0)]), Int(0));
    assert Str("x") !in [Int(0)] && Int(0) in [Int(0)];
  }

  /** A configuration holding only a roles table and a default role. */
  function RoleConfig(roles: Value, dflt: Value): Value {
    Dict(map["context_awareness" := Dict(map["roles" := roles, "default_role" := dflt])])
  }

  /** The roles table and default role of such a configuration read back. */
  lemma RoleConfigReads(roles: Value, dflt: Value)
    requires roles != Null && dflt != Null
    ensures Roles(RoleConfig(roles, dflt)) == roles
    ensures DefaultRole(RoleConfig(roles, dflt)) == dflt
  {
    var inner := map["roles" := roles, "default_role" := dflt];
    assert inner["roles"] == roles && inner["default_role"] == dflt;
    assert Resolves(RoleConfig(roles, dflt), RolesKeys, roles);
    assert Resolves(RoleConfig(roles, dflt), DefaultRoleKeys, dflt);
    LookupResolved(RoleConfig(roles, dflt), RolesKeys, roles, Dict(map[]));
    LookupResolved(RoleConfig(roles, dflt), DefaultRoleKeys, dflt, Str(DefaultRoleName));
  }
}
