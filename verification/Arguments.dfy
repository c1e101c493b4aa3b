/** Structured command-line arguments: rendering them as strings and reading such strings back. */
module Arguments {
  import opened Common
  import opened Text
  import opened Sorting

  /** A slice of strings, where nil is not the same as empty. */
  datatype Slice = Nil | Of(values: seq<string>)

  function Elements(s: Slice): seq<string> {
    if s.Nil? then [] else s.values
  }

  /** Appending to a slice: nil stays nil only when nothing is appended. */
  function AppendTo(s: Slice, more: seq<string>): Slice {
    if s.Nil? && more == [] then Nil else Of(Elements(s) + more)
  }

  datatype Arg =
    | UserArg(vals: Slice)
    | DefaultedArg(vals: Slice)
    | DontPass
    | PassAsName

  function AppendArg(a: Arg, vals: Slice): Arg {
    match a
    case UserArg(v) => UserArg(AppendTo(v, Elements(vals)))
    case DefaultedArg(v) => DefaultedArg(AppendTo(v, Elements(vals)))
    case DontPass => UserArg(vals)
    case PassAsName => PassAsName
  }

  /** The values to pass: nil for none at all, empty for the bare name. */
  function GetArg(a: Arg, defaults: Slice): Slice {
    match a
    case UserArg(v) => v
    case DefaultedArg(v) => AppendTo(AppendTo(Nil, Elements(defaults)), Elements(v))
    case DontPass => Nil
    case PassAsName => Of([])
  }

  // ----- Rendering -----

  function Flag(key: string, val: string): string {
    "--" + key + "=" + val
  }

  function FlagsOf(key: string, vals: seq<string>): seq<string> {
    if vals == [] then [] else FlagsOf(key, vals[..|vals| - 1]) + [Flag(key, vals[|vals| - 1])]
  }

  function RenderOne(key: string, vals: Slice): seq<string> {
    if vals.Nil? then []
    else if vals.values == [] then ["--" + key]
    else FlagsOf(key, vals.values)
  }

  function Lookup<T>(m: map<string, T>, key: string, default: T): T {
    if key in m then m[key] else default
  }

  function ValuesFor(values: map<string, Arg>, defaults: map<string, Slice>, key: string): Slice {
    GetArg(Lookup(values, key, DefaultedArg(Nil)), Lookup(defaults, key, Nil))
  }

  function RenderKeys(values: map<string, Arg>, defaults: map<string, Slice>, keys: seq<string>): seq<string> {
    if keys == [] then []
    else
      var key := keys[|keys| - 1];
      RenderKeys(values, defaults, keys[..|keys| - 1]) + RenderOne(key, ValuesFor(values, defaults, key))
  }

  /** keys lists a set of strings without repetition. */
  ghost predicate Lists(keys: seq<string>, s: set<string>) {
    && (forall k :: k in keys <==> k in s)
    && (forall i, j :: 0 <= i < j < |keys| ==> keys[i] != keys[j])
  }

  /** keys is the set in ascending order. */
  ghost predicate ListsInOrder(keys: seq<string>, s: set<string>) {
    Lists(keys, s) && Sorted(StringLess, keys)
  }

  /** res renders the keys of both maps, each once and in ascending order. */
  ghost predicate Renders(values: map<string, Arg>, defaults: map<string, Slice>, res: seq<string>) {
    exists keys :: ListsInOrder(keys, defaults.Keys + values.Keys) && res == RenderKeys(values, defaults, keys)
  }

  lemma {:induction false} ListsMultiset(keys: seq<string>, s: set<string>, k: string)
    requires Lists(keys, s)
    ensures multiset(keys)[k] == if k in s then 1 else 0
  {
    if keys != [] {
      var init, last := keys[..|keys| - 1], keys[|keys| - 1];
      assert keys == init + [last];
      ListsMultiset(init, s - {last}, k);
    }
  }

  lemma OrderIsUnique(a: seq<string>, b: seq<string>, s: set<string>)
    requires ListsInOrder(a, s) && ListsInOrder(b, s)
    ensures a == b
  {
    StringsAreOrdered();
    forall k ensures multiset(a)[k] == multiset(b)[k] {
      ListsMultiset(a, s, k);
      ListsMultiset(b, s, k);
    }
    SortedIsUnique(StringLess, a, b);
  }

  lemma ListsJoined(a: seq<string>, s: set<string>, b: seq<string>, t: set<string>)
    requires Lists(a, s) && Lists(b, t) && s !! t
    ensures Lists(a + b, s + t)
  {
    forall i, j | 0 <= i < j < |a + b| ensures (a + b)[i] != (a + b)[j] {
      if i < |a| <= j {
        assert a[i] in s && b[j - |a|] in t;
      }
    }
  }

  predicate PassedAsName(values: map<string, Arg>, key: string) {
    key in values && values[key].PassAsName?
  }

  ghost predicate OthersKept(before: map<string, Arg>, after: map<string, Arg>, key: string) {
    after.Keys == before.Keys + {key} && forall k :: k in before && k != key ==> after[k] == before[k]
  }

  /** Appended values come behind those passed so far. */
  lemma AppendedValues(a: Arg, vals: Slice, d: Slice)
    ensures !a.PassAsName? ==> Elements(GetArg(AppendArg(a, vals), d)) == Elements(GetArg(a, d)) + Elements(vals)
    ensures a == DefaultedArg(Of([])) ==> Elements(GetArg(a, d)) == Elements(GetArg(DefaultedArg(Nil), d))
    ensures a == UserArg(Of([])) ==> GetArg(AppendArg(a, vals), d) == Of(Elements(vals))
  {
  }

  /** A key that is not set passes exactly its defaults: none at all where there are none, not even an empty slice. */
  lemma UnsetPassesDefaults(values: map<string, Arg>, defaults: map<string, Slice>, key: string)
    requires key !in values
    ensures var given := Elements(Lookup(defaults, key, Nil));
            && RenderOne(key, ValuesFor(values, defaults, key)) == FlagsOf(key, given)
            && ValuesFor(values, defaults, key) == if given == [] then Nil else Of(given)
  {
    var given := Elements(Lookup(defaults, key, Nil));
    assert [] + given == given && given + [] == given;
  }

  class ArgumentSet {
    var values: map<string, Arg>

    constructor ()
      ensures values == map[]
    {
      values := map[];
    }

    /** Whatever the defaults, the key is rendered as its bare name. */
    method Enable(key: string)
      modifies this
      ensures forall d :: Rendered(d, key) == ["--" + key]
      ensures OthersKept(old(values), values, key)
    {
      values := values[key := PassAsName];
    }

    /** Whatever the defaults, the key is not rendered at all. */
    method Disable(key: string)
      modifies this
      ensures forall d :: Rendered(d, key) == []
      ensures OthersKept(old(values), values, key)
    {
      values := values[key := DontPass];
    }

    /** The values go behind those passed so far, defaults included; a key passed as its name stays so. */
    method Append(key: string, vals: Slice)
      modifies this
      ensures values == old(values)[key := AppendArg(Lookup(old(values), key, DefaultedArg(Of([]))), vals)]
      ensures !PassedAsName(old(values), key) ==> forall d ::
                Elements(ValuesFor(values, d, key)) == Elements(ValuesFor(old(values), d, key)) + Elements(vals)
      ensures PassedAsName(old(values), key) ==> forall d :: Rendered(d, key) == ["--" + key]
      ensures OthersKept(old(values), values, key)
    {
      var arg := DefaultedArg(Of([]));
      if key in values {
        arg := values[key];
      }
      forall d { AppendedValues(arg, vals, d); }
      values := values[key := AppendArg(arg, vals)];
    }

    /** The same, but a key that was not set yet loses its defaults. */
    method AppendNoDefaults(key: string, vals: Slice)
      modifies this
      ensures values == NoDefaults(old(values), key, vals)
      ensures key !in old(values) ==> forall d :: ValuesFor(values, d, key) == Of(Elements(vals))
      ensures key in old(values) && !PassedAsName(old(values), key) ==> forall d ::
                Elements(ValuesFor(values, d, key)) == Elements(ValuesFor(old(values), d, key)) + Elements(vals)
      ensures PassedAsName(old(values), key) ==> forall d :: Rendered(d, key) == ["--" + key]
      ensures OthersKept(old(values), values, key)
    {
      var arg := UserArg(Of([]));
      if key in values {
        arg := values[key];
      }
      forall d { AppendedValues(arg, vals, d); }
      values := values[key := AppendArg(arg, vals)];
    }

    /** Whatever the defaults, the key is rendered as one flag per value given, or not at all for nil. */
    method Set(key: string, vals: Slice)
      modifies this
      ensures forall d :: ValuesFor(values, d, key) == vals
      ensures vals.Of? && vals.values != [] ==> forall d :: Rendered(d, key) == FlagsOf(key, vals.values)
      ensures OthersKept(old(values), values, key)
    {
      values := values[key := UserArg(vals)];
    }

    /** The strings that stand for one key. */
    ghost function Rendered(defaults: map<string, Slice>, key: string): seq<string>
      reads this
    {
      RenderOne(key, ValuesFor(values, defaults, key))
    }

    /** `defaultKeys` and `valueKeys` are the orders in which the loops meet the keys of the two maps. */
    method AsStrings(defaults: map<string, Slice>, defaultKeys: seq<string>, valueKeys: seq<string>)
      returns (res: seq<string>)
      requires Lists(defaultKeys, defaults.Keys) && Lists(valueKeys, values.Keys)
      ensures Renders(values, defaults, res)
    {
      var all := CollectKeys(values, defaults, defaultKeys, valueKeys);
      var inOrder := SortKeys(all, defaults.Keys + values.Keys);
      res := [];
      for i := 0 to |inOrder|
        invariant res == RenderKeys(values, defaults, inOrder[..i])
      {
        assert inOrder[..i + 1][..i] == inOrder[..i];
        var rendered := RenderKey(values, defaults, inOrder[i]);
        res := res + rendered;
      }
      assert inOrder[..|inOrder|] == inOrder;
    }
  }

  /** The keys to render: those of the defaults that the user has not set, then the user's. */
  method CollectKeys(values: map<string, Arg>, defaults: map<string, Slice>, defaultKeys: seq<string>, valueKeys: seq<string>)
    returns (all: seq<string>)
    requires Lists(defaultKeys, defaults.Keys) && Lists(valueKeys, values.Keys)
    ensures Lists(all, defaults.Keys + values.Keys)
  {
    var collected: seq<string> := [];
    for i := 0 to |defaultKeys|
      invariant forall k :: k in collected <==> k in defaultKeys[..i] && k !in values
      invariant forall a, b :: 0 <= a < b < |collected| ==> collected[a] != collected[b]
    {
      assert defaultKeys[..i + 1] == defaultKeys[..i] + [defaultKeys[i]];
      if defaultKeys[i] !in values {
        collected := collected + [defaultKeys[i]];
      }
    }
    assert defaultKeys[..|defaultKeys|] == defaultKeys;
    assert (defaults.Keys - values.Keys) + values.Keys == defaults.Keys + values.Keys;
    ListsJoined(collected, defaults.Keys - values.Keys, valueKeys, values.Keys);
    return collected + valueKeys;
  }

  /** One key: nothing, its bare name, or one flag per value. */
  method RenderKey(values: map<string, Arg>, defaults: map<string, Slice>, key: string) returns (res: seq<string>)
    ensures res == RenderOne(key, ValuesFor(values, defaults, key))
  {
    var arg := DefaultedArg(Nil);
    if key in values {
      arg := values[key];
    }
    var vals := GetArg(arg, if key in defaults then defaults[key] else Nil);
    if vals.Nil? {
      res := [];
    } else if |vals.values| == 0 {
      res := ["--" + key];
    } else {
      res := RenderFlags(key, vals.values);
    }
  }

  method SortKeys(all: seq<string>, s: set<string>) returns (r: seq<string>)
    requires Lists(all, s)
    ensures ListsInOrder(r, s)
  {
    StringsAreOrdered();
    SortSorts(StringLess, all);
    r := Sort(StringLess, all);
    forall k ensures multiset(r)[k] == if k in s then 1 else 0 { ListsMultiset(all, s, k); }
    CountedIsListed(r, s);
  }

  lemma CountedIsListed(r: seq<string>, s: set<string>)
    requires forall k :: multiset(r)[k] == if k in s then 1 else 0
    ensures Lists(r, s)
  {
    forall k ensures k in r <==> k in s { assert k in multiset(r) <==> k in r; }
    forall i, j | 0 <= i < j < |r| ensures r[i] != r[j] {
      if r[i] == r[j] {
        CountedTwice(r, i, j);
      }
    }
  }

  lemma CountedTwice(r: seq<string>, i: nat, j: nat)
    requires i < j < |r| && r[i] == r[j]
    ensures multiset(r)[r[i]] >= 2
  {
    var x := r[i];
    assert r == r[..j] + r[j..];
    assert r[..j][i] == x && x in multiset(r[..j]);
    assert r[j..][0] == x && x in multiset(r[j..]);
    assert multiset(r)[x] == multiset(r[..j])[x] + multiset(r[j..])[x];
  }

  method RenderFlags(key: string, vals: seq<string>) returns (flags: seq<string>)
    ensures flags == FlagsOf(key, vals)
  {
    flags := [];
    for i := 0 to |vals|
      invariant flags == FlagsOf(key, vals[..i])
    {
      assert vals[..i + 1][..i] == vals[..i];
      flags := flags + ["--" + key + "=" + vals[i]];
    }
    assert vals[..|vals|] == vals;
  }

  function NoDefaults(values: map<string, Arg>, key: string, vals: Slice): map<string, Arg> {
    values[key := AppendArg(Lookup(values, key, UserArg(Of([]))), vals)]
  }

  // ----- Reading back -----

  /** The key and value of a string of the form --key=value. */
  function AsFlag(arg: string): Option<(string, string)> {
    if "--" <= arg then Cut(arg[2..], '=') else None
  }

  /** The arguments after the given strings were read, the strings left over, and whether "--" was met. */
  datatype Reading = Reading(values: map<string, Arg>, rest: seq<string>, stopped: bool)

  function ReadOne(r: Reading, arg: string): Reading {
    if r.stopped then r.(rest := r.rest + [arg])
    else if arg == "--" then r.(rest := r.rest + [arg], stopped := true)
    else
      match AsFlag(arg)
      case None => r.(rest := r.rest + [arg])
      case Some((key, val)) => r.(values := NoDefaults(r.values, key, Of([val])))
  }

  function ReadAll(values: map<string, Arg>, args: seq<string>): Reading {
    if args == [] then Reading(values, [], false)
    else ReadOne(ReadAll(values, args[..|args| - 1]), args[|args| - 1])
  }

  lemma {:induction false} AfterStop(values: map<string, Arg>, args: seq<string>, i: nat)
    requires i <= |args| && ReadAll(values, args[..i]).stopped
    ensures var r := ReadAll(values, args[..i]);
            ReadAll(values, args) == r.(rest := r.rest + args[i..])
    decreases |args| - i
  {
    if i == |args| {
      assert args[..i] == args && args[i..] == [];
    } else {
      var n := |args| - 1;
      assert args[..n][..i] == args[..i];
      AfterStop(values, args[..n], i);
      assert args[i..] == args[..n][i..] + [args[n]];
    }
  }

  lemma ContainsEquals(arg: string)
    requires "--" <= arg
    ensures AsFlag(arg).Some? <==> '=' in arg
  {
    CutFinds(arg[2..], '=');
    assert arg == arg[..2] + arg[2..];
    assert arg[..2] == "--";
  }

  predicate LooksLikeFlag(arg: string) {
    "--" <= arg && '=' in arg
  }

  /** The values given to a key, in order. */
  function GivenTo(args: seq<string>, key: string): seq<string> {
    if args == [] then []
    else
      var f := AsFlag(args[|args| - 1]);
      GivenTo(args[..|args| - 1], key) + if f.Some? && f.value.0 == key then [f.value.1] else []
  }

  lemma NotAFlag(arg: string)
    ensures AsFlag(arg).None? <==> !LooksLikeFlag(arg)
  {
    if "--" <= arg {
      ContainsEquals(arg);
    }
  }

  /** The key holds what it held, with the given values appended; without any, it is as it was. */
  ghost predicate Holds(before: map<string, Arg>, after: map<string, Arg>, key: string, given: seq<string>) {
    if given == [] then (key in after <==> key in before) && (key in before ==> after[key] == before[key])
    else key in after && after[key] == AppendArg(Lookup(before, key, UserArg(Of([]))), Of(given))
  }

  lemma HoldsOneMore(before: map<string, Arg>, r: Reading, key: string, given: seq<string>, arg: string)
    requires Holds(before, r.values, key, given) && !r.stopped && arg != "--"
    ensures var f := AsFlag(arg);
            Holds(before, ReadOne(r, arg).values, key, given + if f.Some? && f.value.0 == key then [f.value.1] else [])
  {
    var f := AsFlag(arg);
    if f.Some? && f.value.0 == key {
      AppendedInTurn(Lookup(before, key, UserArg(Of([]))), given, given + [f.value.1]);
      assert (given + [f.value.1])[|given|..] == [f.value.1];
    } else {
      assert given + [] == given;
    }
  }

  /** Up to the first "--", what does not look like a flag is left over, in order, and each flag adds to its key. */
  lemma {:induction false} ReadsFlags(values: map<string, Arg>, args: seq<string>, key: string)
    requires "--" !in args
    ensures var r := ReadAll(values, args);
            && !r.stopped && r.rest == Filter((arg: string) => !LooksLikeFlag(arg), args)
            && Holds(values, r.values, key, GivenTo(args, key))
  {
    if args != [] {
      var init, arg := args[..|args| - 1], args[|args| - 1];
      ReadsFlags(values, init, key);
      NotAFlag(arg);
      HoldsOneMore(values, ReadAll(values, init), key, GivenTo(init, key), arg);
    }
  }

  lemma AppendedInTurn(a: Arg, first: seq<string>, all: seq<string>)
    requires first <= all
    ensures first != [] ==> AppendArg(AppendArg(a, Of(first)), Of(all[|first|..])) == AppendArg(a, Of(all))
    ensures first == [] ==> all[|first|..] == all
  {
    assert all == first + all[|first|..];
    if a.UserArg? || a.DefaultedArg? {
      assert Elements(a.vals) + first + all[|first|..] == Elements(a.vals) + all;
    }
  }

  /** The first "--" and all that follows are left over as they are. */
  lemma LeftOver(values: map<string, Arg>, args: seq<string>, i: nat)
    requires i < |args| && args[i] == "--" && "--" !in args[..i]
    ensures var r := ReadAll(values, args[..i]);
            ReadAll(values, args) == Reading(r.values, r.rest + args[i..], true)
  {
    ReadsFlags(values, args[..i], "");
    assert args[..i + 1][..i] == args[..i];
    AfterStop(values, args, i + 1);
    var r := ReadAll(values, args[..i]);
    assert ReadAll(values, args[..i + 1]) == r.(rest := r.rest + ["--"], stopped := true);
    assert r.rest + ["--"] + args[i + 1..] == r.rest + args[i..];
  }

  method SliceToArguments(args: ArgumentSet, sliceArgs: seq<string>) returns (rest: seq<string>)
    modifies args
    ensures var r := ReadAll(old(args.values), sliceArgs); args.values == r.values && rest == r.rest
  {
    rest := [];
    ghost var was := args.values;
    for i := 0 to |sliceArgs|
      invariant Reading(args.values, rest, false) == ReadAll(was, sliceArgs[..i])
    {
      var arg := sliceArgs[i];
      assert sliceArgs[..i + 1][..i] == sliceArgs[..i];
      if arg == "--" {
        AfterStop(was, sliceArgs, i + 1);
        assert [arg] + sliceArgs[i + 1..] == sliceArgs[i..];
        rest := rest + sliceArgs[i..];
        return;
      }
      if !("--" <= arg) || '=' !in arg {
        if "--" <= arg { ContainsEquals(arg); }
        rest := rest + [arg];
        continue;
      }
      ContainsEquals(arg);
      var parts := Cut(arg[2..], '=').value;
      args.AppendNoDefaults(parts.0, Of([parts.1]));
    }
    assert sliceArgs[..|sliceArgs|] == sliceArgs;
  }

  // ----- Rendering and reading -----

  /** The rendering depends on the two maps alone, not on any order of their keys. */
  lemma RenderingIsDeterministic(values: map<string, Arg>, defaults: map<string, Slice>, a: seq<string>, b: seq<string>)
    requires Renders(values, defaults, a) && Renders(values, defaults, b)
    ensures a == b
  {
    var s := defaults.Keys + values.Keys;
    var keys :| ListsInOrder(keys, s) && a == RenderKeys(values, defaults, keys);
    var keys' :| ListsInOrder(keys', s) && b == RenderKeys(values, defaults, keys');
    OrderIsUnique(keys, keys', s);
  }

  lemma FlagIsRead(key: string, val: string)
    requires '=' !in key
    ensures AsFlag(Flag(key, val)) == Some((key, val)) && Flag(key, val) != "--"
  {
    var f := Flag(key, val);
    assert f[2..] == key + ['='] + val;
    assert "--" <= f;
    CutJoined(key, '=', val);
  }

  lemma ReadAppended(values: map<string, Arg>, before: seq<string>, arg: string)
    ensures ReadAll(values, before + [arg]) == ReadOne(ReadAll(values, before), arg)
  {
    assert (before + [arg])[..|before|] == before;
  }

  lemma OneMoreValue(r: Reading, key: string, vals: seq<string>, val: string)
    requires '=' !in key && !r.stopped && key !in r.values
    ensures ReadOne(WithValues(r, key, vals), Flag(key, val)) == WithValues(r, key, vals + [val])
  {
    FlagIsRead(key, val);
    if vals == [] {
      assert vals + [val] == [val];
    } else {
      assert r.values[key := UserArg(Of(vals))][key := UserArg(Of(vals + [val]))]
          == r.values[key := UserArg(Of(vals + [val]))];
    }
  }

  /** What reading the flags of a new key makes of a reading. */
  function WithValues(r: Reading, key: string, vals: seq<string>): Reading {
    if vals == [] then r else r.(values := r.values[key := UserArg(Of(vals))])
  }

  lemma FlagsEnd(before: seq<string>, key: string, init: seq<string>, last: string)
    ensures before + FlagsOf(key, init + [last]) == (before + FlagsOf(key, init)) + [Flag(key, last)]
  {
    assert (init + [last])[..|init|] == init;
  }

  lemma FlagsReadOn(values: map<string, Arg>, before: seq<string>, key: string, init: seq<string>, last: string, r: Reading)
    requires '=' !in key && !r.stopped && key !in r.values
    requires ReadAll(values, before + FlagsOf(key, init)) == WithValues(r, key, init)
    ensures ReadAll(values, before + FlagsOf(key, init + [last])) == WithValues(r, key, init + [last])
  {
    FlagsEnd(before, key, init, last);
    ReadAppended(values, before + FlagsOf(key, init), Flag(key, last));
    OneMoreValue(r, key, init, last);
  }

  /** Reading the flags of one new key collects its values in order. */
  lemma {:induction false} FlagsAreRead(values: map<string, Arg>, before: seq<string>, key: string, vals: seq<string>)
    requires '=' !in key && !ReadAll(values, before).stopped && key !in ReadAll(values, before).values
    ensures ReadAll(values, before + FlagsOf(key, vals)) == WithValues(ReadAll(values, before), key, vals)
  {
    if vals == [] {
      assert before + FlagsOf(key, vals) == before;
    } else {
      var init, last := vals[..|vals| - 1], vals[|vals| - 1];
      FlagsAreRead(values, before, key, init);
      FlagsReadOn(values, before, key, init, last, ReadAll(values, before));
      assert vals == init + [last];
    }
  }

  /** Every flag has user values, at least one, and no key contains the separator. */
  ghost predicate Plain(values: map<string, Arg>) {
    forall k :: k in values ==> '=' !in k && values[k].UserArg? && values[k].vals.Of? && values[k].vals.values != []
  }

  function Restrict(values: map<string, Arg>, keys: seq<string>): map<string, Arg> {
    map k | k in values && k in keys :: values[k]
  }

  lemma {:induction false} PrefixRoundTrip(values: map<string, Arg>, keys: seq<string>)
    requires Plain(values) && (forall k :: k in keys ==> k in values)
    requires forall i, j :: 0 <= i < j < |keys| ==> keys[i] != keys[j]
    ensures ReadAll(map[], RenderKeys(values, map[], keys)) == Reading(Restrict(values, keys), [], false)
  {
    if keys != [] {
      var init, key := keys[..|keys| - 1], keys[|keys| - 1];
      assert keys == init + [key] && key !in init;
      PrefixRoundTrip(values, init);
      OneMoreKey(values, init, key);
    }
  }

  lemma OneMoreKey(values: map<string, Arg>, init: seq<string>, key: string)
    requires Plain(values) && key in values && key !in init
    requires ReadAll(map[], RenderKeys(values, map[], init)) == Reading(Restrict(values, init), [], false)
    ensures ReadAll(map[], RenderKeys(values, map[], init + [key])) == Reading(Restrict(values, init + [key]), [], false)
  {
    PlainRendering(values, init, key);
    FlagsAreRead(map[], RenderKeys(values, map[], init), key, values[key].vals.values);
    RestrictStep(values, init, key);
  }

  lemma PlainRendering(values: map<string, Arg>, init: seq<string>, key: string)
    requires Plain(values) && key in values
    ensures RenderKeys(values, map[], init + [key]) ==
            RenderKeys(values, map[], init) + FlagsOf(key, values[key].vals.values)
  {
    assert (init + [key])[..|init|] == init;
  }

  lemma RestrictStep(values: map<string, Arg>, init: seq<string>, key: string)
    requires key in values
    ensures Restrict(values, init + [key]) == Restrict(values, init)[key := values[key]]
  {
  }

  /** Reading the rendering of plain flags into empty arguments restores all of them and leaves nothing over. */
  lemma RoundTrip(values: map<string, Arg>, res: seq<string>)
    requires Plain(values) && Renders(values, map[], res)
    ensures ReadAll(map[], res) == Reading(values, [], false)
  {
    var none: map<string, Slice> := map[];
    assert none.Keys + values.Keys == values.Keys;
    var keys :| ListsInOrder(keys, values.Keys) && res == RenderKeys(values, none, keys);
    PrefixRoundTrip(values, keys);
    RestrictAll(values, keys);
  }

  lemma RestrictAll(values: map<string, Arg>, keys: seq<string>)
    requires Lists(keys, values.Keys)
    ensures Restrict(values, keys) == values
  {
  }
}
