/** The global interceptor registry (packages/v-x-e-table/src/interceptor.ts): a store from
    a normalised event type to the list of callbacks registered for it. Callbacks are
    compared by identity, so a callback is an opaque reference; an absent (falsy)
    callback argument is `None`. */
module Interceptor {
  import opened Options

  type Callback = int

  /** ASCII lower-casing of one character. */
  function LowerChar(c: char): (d: char)
    ensures (d == '_') <==> (c == '_')
    ensures !('A' <= d <= 'Z')
  {
    if 'A' <= c <= 'Z' then (c as int + 32) as char else c
  }

  function Lower(s: string): (r: string)
    ensures |r| == |s|
    ensures forall i :: 0 <= i < |s| ==> r[i] == LowerChar(s[i])
  {
    seq(|s|, i requires 0 <= i < |s| => LowerChar(s[i]))
  }

  /** The position of the first occurrence of `c` in `s`. */
  function FirstIndex(s: string, c: char): (i: nat)
    requires c in s
    ensures i < |s| && s[i] == c && c !in s[..i]
  {
    if s[0] == c then 0
    else
      assert s == [s[0]] + s[1..];
      var j := FirstIndex(s[1..], c);
      assert s[..j + 1] == [s[0]] + s[1..][..j];
      j + 1
  }

  /** String.prototype.replace with a one-character pattern: drop the first occurrence. */
  function RemoveFirst(s: string, c: char): (r: string)
    ensures c !in s ==> r == s
    ensures c in s ==> |r| == |s| - 1
  {
    if s == [] then [] else if s[0] == c then s[1..] else [s[0]] + RemoveFirst(s[1..], c)
  }

  /** The character removed is the first occurrence: everything before it is kept, and so
      is everything after it. */
  lemma {:induction false} RemoveFirstAtFirstIndex(s: string, c: char)
    requires c in s
    ensures RemoveFirst(s, c) == s[..FirstIndex(s, c)] + s[FirstIndex(s, c) + 1..]
    decreases |s|
  {
    if s[0] == c {
      assert s[..0] == [];
    } else {
      assert s == [s[0]] + s[1..];
      assert c in s[1..];
      RemoveFirstAtFirstIndex(s[1..], c);
      var j := FirstIndex(s[1..], c);
      assert s[..j + 1] == [s[0]] + s[1..][..j];
      assert s[j + 2..] == s[1..][j + 1..];
    }
  }

  /** toType: prefix "event.", drop the first underscore, lower-case. */
  function ToType(t: string): string
  {
    Lower(RemoveFirst("event." + t, '_'))
  }

  /** The whitelist of event types `add` accepts. */
  const EventTypes: seq<string> :=
    [ToType("clearActived"), ToType("clearFilter"), ToType("showMenu"),
     ToType("keydown"), ToType("export"), ToType("import")]

  lemma {:induction false} LowerConcat(a: string, b: string)
    ensures Lower(a + b) == Lower(a) + Lower(b)
  {
    var l, r := Lower(a + b), Lower(a) + Lower(b);
    forall i | 0 <= i < |l|
      ensures l[i] == r[i]
    {
      if i < |a| {
        assert (a + b)[i] == a[i];
      } else {
        assert (a + b)[i] == b[i - |a|];
      }
    }
  }

  /** Lower-casing and dropping the first underscore commute. */
  lemma {:induction false} LowerRemoveFirst(s: string)
    ensures Lower(RemoveFirst(s, '_')) == RemoveFirst(Lower(s), '_')
    decreases |s|
  {
    if s != [] {
      assert Lower(s) == [LowerChar(s[0])] + Lower(s[1..]);
      assert Lower(s)[1..] == Lower(s[1..]);
      if s[0] != '_' {
        LowerRemoveFirst(s[1..]);
        LowerConcat([s[0]], RemoveFirst(s[1..], '_'));
      }
    }
  }

  /** toType spelled out: the prefix, then the lower-cased type with its first underscore
      dropped. */
  lemma ToTypeShape(t: string)
    ensures ToType(t) == "event." + RemoveFirst(Lower(t), '_')
  {
    var p := "event.";
    assert '_' !in p;
    assert RemoveFirst(p + t, '_') == p + RemoveFirst(t, '_') by {
      PrefixWithoutUnderscore(p, t);
    }
    LowerConcat(p, RemoveFirst(t, '_'));
    assert Lower(p) == p;
    LowerRemoveFirst(t);
  }

  lemma {:induction false} PrefixWithoutUnderscore(p: string, t: string)
    requires '_' !in p
    ensures RemoveFirst(p + t, '_') == p + RemoveFirst(t, '_')
    decreases |p|
  {
    if p == [] {
      assert p + t == t;
    } else {
      assert (p + t)[1..] == p[1..] + t;
      PrefixWithoutUnderscore(p[1..], t);
    }
  }

  /** Type names that differ only in letter case normalise to the same key. */
  lemma ToTypeCaseInsensitive(a: string, b: string)
    requires Lower(a) == Lower(b)
    ensures ToType(a) == ToType(b)
  {
    ToTypeShape(a);
    ToTypeShape(b);
  }

  /** A type name without underscores normalises to its lower-cased spelling. */
  lemma SpellType(t: string, l: string)
    requires Lower(t) == l && '_' !in l
    ensures ToType(t) == "event." + l
  {
    ToTypeShape(t);
  }

  /** The whitelist, normalised: one lemma per entry keeps each literal computation small. */
  lemma ClearActivedKey()
    ensures ToType("clearActived") == "event.clearactived"
  {
    SpellType("clearActived", "clearactived");
  }

  lemma ClearFilterKey()
    ensures ToType("clearFilter") == "event.clearfilter"
  {
    SpellType("clearFilter", "clearfilter");
  }

  lemma ShowMenuKey()
    ensures ToType("showMenu") == "event.showmenu"
  {
    SpellType("showMenu", "showmenu");
  }

  lemma KeydownKey()
    ensures ToType("keydown") == "event.keydown"
  {
    SpellType("keydown", "keydown");
  }

  lemma ExportKey()
    ensures ToType("export") == "event.export"
  {
    SpellType("export", "export");
  }

  lemma ImportKey()
    ensures ToType("import") == "event.import"
  {
    SpellType("import", "import");
  }

  lemma EventTypesSpelledOut()
    ensures EventTypes == ["event.clearactived", "event.clearfilter", "event.showmenu",
                           "event.keydown", "event.export", "event.import"]
  {
    ClearActivedKey(); ClearFilterKey(); ShowMenuKey(); KeydownKey(); ExportKey(); ImportKey();
  }

  /** `get('clearActived')` and `get('clearactived')` hit the same list. */
  lemma ClearActivedEitherCase(store: map<string, seq<Callback>>)
    ensures Lookup(store, ToType("clearActived")) == Lookup(store, ToType("clearactived"))
  {
    ToTypeCaseInsensitive("clearActived", "clearactived");
  }

  /** The list stored under a key, or the empty list. */
  function Lookup(store: map<string, seq<Callback>>, key: string): (cbs: seq<Callback>)
    ensures key !in store ==> cbs == []
  {
    if key in store then store[key] else []
  }

  /** The callbacks of `cbs` other than `cb`, in their order (XEUtils.remove in place). */
  function Without(cbs: seq<Callback>, cb: Callback): (r: seq<Callback>)
    ensures |r| <= |cbs|
    ensures forall x :: x in r <==> x in cbs && x != cb
  {
    if cbs == [] then []
    else
      assert cbs == [cbs[0]] + cbs[1..];
      (if cbs[0] == cb then [] else [cbs[0]]) + Without(cbs[1..], cb)
  }

  /** Removing one callback distributes over concatenation, so the rest keep their order. */
  lemma {:induction false} WithoutConcat(a: seq<Callback>, b: seq<Callback>, cb: Callback)
    ensures Without(a + b, cb) == Without(a, cb) + Without(b, cb)
    decreases |a|
  {
    if a == [] {
      assert a + b == b;
    } else {
      assert (a + b)[1..] == a[1..] + b;
      WithoutConcat(a[1..], b, cb);
    }
  }

  /** Removing an absent callback changes nothing. */
  lemma {:induction false} WithoutAbsent(cbs: seq<Callback>, cb: Callback)
    requires cb !in cbs
    ensures Without(cbs, cb) == cbs
    decreases |cbs|
  {
    if cbs != [] {
      assert cbs == [cbs[0]] + cbs[1..];
      WithoutAbsent(cbs[1..], cb);
    }
  }

  /** The store after `add(t, callback)`. */
  function AddStep(store: map<string, seq<Callback>>, t: string, callback: Option<Callback>): map<string, seq<Callback>>
  {
    var key := ToType(t);
    if callback.Some? && key in EventTypes then store[key := Lookup(store, key) + [callback.value]] else store
  }

  /** The store after `delete(t, callback)`. */
  function DeleteStep(store: map<string, seq<Callback>>, t: string, callback: Option<Callback>): map<string, seq<Callback>>
  {
    var key := ToType(t);
    if key !in store then store
    else if callback.Some? then store[key := Without(store[key], callback.value)]
    else store - {key}
  }

  /** The store after `mixin(options)`, entries taken in enumeration order. */
  function MixinSteps(store: map<string, seq<Callback>>, options: seq<(string, Option<Callback>)>): map<string, seq<Callback>>
  {
    if options == [] then store
    else AddStep(MixinSteps(store, options[..|options|-1]), options[|options|-1].0, options[|options|-1].1)
  }

  /** `add` appends the callback to its type's list when the callback is present and the
      type whitelisted, and otherwise leaves that list alone. */
  lemma AddAppends(store: map<string, seq<Callback>>, t: string, callback: Option<Callback>)
    ensures Lookup(AddStep(store, t, callback), ToType(t)) ==
      if callback.Some? && ToType(t) in EventTypes then Lookup(store, ToType(t)) + [callback.value]
      else Lookup(store, ToType(t))
    ensures !(callback.Some? && ToType(t) in EventTypes) ==> AddStep(store, t, callback) == store
  {
  }

  /** `add` and `delete` on one type leave every other type's list as it was. */
  lemma OtherTypesUntouched(store: map<string, seq<Callback>>, t: string, callback: Option<Callback>, key: string)
    requires key != ToType(t)
    ensures Lookup(AddStep(store, t, callback), key) == Lookup(store, key)
    ensures Lookup(DeleteStep(store, t, callback), key) == Lookup(store, key)
  {
  }

  /** `delete(t)` without a callback drops the whole list; `delete(t, cb)` removes every
      occurrence of `cb` and keeps the rest in order. */
  lemma DeleteRemoves(store: map<string, seq<Callback>>, t: string, callback: Option<Callback>)
    ensures callback.None? ==> Lookup(DeleteStep(store, t, callback), ToType(t)) == []
    ensures callback.Some? ==> Lookup(DeleteStep(store, t, callback), ToType(t)) == Without(Lookup(store, ToType(t)), callback.value)
  {
  }

  /** Adding a new callback and deleting it again restores its type's list. */
  lemma AddThenDelete(store: map<string, seq<Callback>>, t: string, cb: Callback)
    requires cb !in Lookup(store, ToType(t))
    ensures Lookup(DeleteStep(AddStep(store, t, Some(cb)), t, Some(cb)), ToType(t)) == Lookup(store, ToType(t))
  {
    var l := Lookup(store, ToType(t));
    WithoutAbsent(l, cb);
    if ToType(t) in EventTypes {
      WithoutConcat(l, [cb], cb);
      assert Without([cb], cb) == [];
    } else if ToType(t) in store {
      WithoutAbsent(store[ToType(t)], cb);
    }
  }

  /** Only whitelisted types ever have an entry. */
  predicate Whitelisted(store: map<string, seq<Callback>>)
  {
    forall k :: k in store ==> k in EventTypes
  }

  lemma StepsKeepWhitelist(store: map<string, seq<Callback>>, t: string, callback: Option<Callback>)
    requires Whitelisted(store)
    ensures Whitelisted(AddStep(store, t, callback))
    ensures Whitelisted(DeleteStep(store, t, callback))
  {
  }

  /** Two mixins in a row are one mixin of both option lists. */
  lemma {:induction false} MixinConcat(store: map<string, seq<Callback>>, a: seq<(string, Option<Callback>)>,
                                       b: seq<(string, Option<Callback>)>)
    ensures MixinSteps(store, a + b) == MixinSteps(MixinSteps(store, a), b)
    decreases |b|
  {
    if b == [] {
      assert a + b == a;
    } else {
      assert (a + b)[..|a + b|-1] == a + b[..|b|-1];
      MixinConcat(store, a, b[..|b|-1]);
    }
  }

  class Registry {
    var storeMap: map<string, seq<Callback>>

    ghost predicate Valid()
      reads this
    {
      Whitelisted(storeMap)
    }

    constructor ()
      ensures Valid() && storeMap == map[]
    {
      storeMap := map[];
    }

    /** get: the list registered under the normalised type, or the empty list. */
    function Get(t: string): (cbs: seq<Callback>)
      reads this
      ensures ToType(t) !in storeMap ==> cbs == []
      ensures ToType(t) in storeMap ==> cbs == storeMap[ToType(t)]
      ensures cbs == Lookup(storeMap, ToType(t))
    {
      Lookup(storeMap, ToType(t))
    }

    method Add(t: string, callback: Option<Callback>)
      requires Valid()
      modifies this
      ensures Valid()
      ensures storeMap == AddStep(old(storeMap), t, callback)
    {
      var key := ToType(t);
      if callback.Some? && key in EventTypes {
        var eList := if key in storeMap then storeMap[key] else [];
        storeMap := storeMap[key := eList + [callback.value]];
      }
    }

    method Delete(t: string, callback: Option<Callback>)
      requires Valid()
      modifies this
      ensures Valid()
      ensures storeMap == DeleteStep(old(storeMap), t, callback)
    {
      var key := ToType(t);
      if key in storeMap {
        if callback.Some? {
          storeMap := storeMap[key := Without(storeMap[key], callback.value)];
        } else {
          storeMap := storeMap - {key};
        }
      }
    }

    /** mixin: `add` for every (type, callback) entry, in enumeration order. */
    method Mixin(options: seq<(string, Option<Callback>)>)
      requires Valid()
      modifies this
      ensures Valid()
      ensures storeMap == MixinSteps(old(storeMap), options)
    {
      var i := 0;
      while i < |options|
        invariant 0 <= i <= |options|
        invariant Valid()
        invariant storeMap == MixinSteps(old(storeMap), options[..i])
      {
        assert options[..i + 1][..i] == options[..i];
        Add(options[i].0, options[i].1);
        i := i + 1;
      }
      assert options[..i] == options;
    }
  }
}
