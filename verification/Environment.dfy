/** A child's environment: `Command::env` and `Command::environment` in `src/command.rs`. */
module Environment {
  import opened Wrappers
  import opened ByteStrings

  /** The key of an override with its `=`, so that one name cannot match a longer one. */
  function KeyOf(entry: Bytes): (key: Bytes)
    ensures key <= entry
  {
    match Position(entry, EQUALS)
    case None => entry
    case Some(i) => entry[..i + 1]
  }

  function Entry(name: Bytes, value: Bytes): Bytes {
    name + [EQUALS] + value
  }

  /** `retain`: the entries that do not start with `key`, in order. */
  function Without(entries: seq<Bytes>, key: Bytes): seq<Bytes> {
    if entries == [] then []
    else (if key <= entries[0] then [] else [entries[0]]) + Without(entries[1..], key)
  }

  /** What the loop over the overrides leaves. */
  function Overridden(inherited: seq<Bytes>, overrides: seq<Bytes>): seq<Bytes> {
    if overrides == [] then inherited
    else
      var last := overrides[|overrides| - 1];
      Without(Overridden(inherited, overrides[..|overrides| - 1]), KeyOf(last)) + [last]
  }

  function NulTerminated(entries: seq<Bytes>): (r: seq<Bytes>)
    ensures |r| == |entries| && forall i :: 0 <= i < |r| ==> r[i] == entries[i] + [0]
  {
    seq(|entries|, i requires 0 <= i < |entries| => entries[i] + [0])
  }

  method Retain(entries: seq<Bytes>, key: Bytes) returns (kept: seq<Bytes>)
    ensures kept == Without(entries, key)
  {
    kept := [];
    for i := 0 to |entries|
      invariant kept + Without(entries[i..], key) == Without(entries, key)
    {
      assert entries[i..][1..] == entries[i + 1..];
      if !(key <= entries[i]) {
        kept := kept + [entries[i]];
      }
    }
  }

  lemma OneMoreOverride(inherited: seq<Bytes>, overrides: seq<Bytes>, last: Bytes)
    ensures Overridden(inherited, overrides + [last]) == Without(Overridden(inherited, overrides), KeyOf(last)) + [last]
  {
    assert (overrides + [last])[..|overrides|] == overrides;
  }

  class Command {
    var overrides: seq<Bytes>

    constructor ()
      ensures overrides == []
    {
      overrides := [];
    }

    method Env(name: Bytes, value: Bytes)
      modifies this
      ensures overrides == old(overrides) + [name + [EQUALS] + value]
      ensures overrides == old(overrides) + [Entry(name, value)]
    {
      var entry := name;
      entry := entry + [EQUALS];
      entry := entry + value;
      overrides := overrides + [entry];
    }

    /** `inherited` is what `env::environ` read. */
    method Environment(inherited: seq<Bytes>) returns (envp: seq<Bytes>)
      ensures envp == NulTerminated(Overridden(inherited, overrides))
    {
      var entries := inherited;
      for i := 0 to |overrides|
        invariant entries == Overridden(inherited, overrides[..i])
      {
        var entry := overrides[i];
        var keyEnd := match Position(entry, EQUALS) case None => |entry| case Some(at) => at + 1;
        var key := entry[..keyEnd];
        assert key == KeyOf(entry);
        entries := Retain(entries, key);
        entries := entries + [entry];
        OneMoreOverride(inherited, overrides[..i], entry);
        assert overrides[..i + 1] == overrides[..i] + [entry];
      }
      assert overrides[..|overrides|] == overrides;
      envp := NulTerminated(entries);
    }
  }

  // ---- What the result means ----

  /** A name and its `=`, the name itself holding none. */
  predicate IsKey(key: Bytes) {
    |key| > 0 && key[|key| - 1] == EQUALS && EQUALS !in key[..|key| - 1]
  }

  lemma KeyOfEntry(name: Bytes, value: Bytes)
    requires EQUALS !in name
    ensures KeyOf(Entry(name, value)) == name + [EQUALS] && IsKey(name + [EQUALS])
  {
    PositionAfter(name, EQUALS, value);
    assert Entry(name, value)[..|name| + 1] == name + [EQUALS];
  }

  /** An entry is its key and then its value, and nothing else. */
  lemma EntryIsKeyAndValue(name: Bytes, value: Bytes)
    requires EQUALS !in name
    ensures var entry, key := Entry(name, value), KeyOf(Entry(name, value));
      && key == name + [EQUALS] && |entry| == |key| + |value| && entry[..|key|] == key && entry[|key|..] == value
  {
    KeyOfEntry(name, value);
  }

  /** Two different keys never match the same entry. */
  lemma KeysAreDisjoint(k1: Bytes, k2: Bytes, entry: Bytes)
    requires IsKey(k1) && IsKey(k2) && k1 <= entry && k2 <= entry
    ensures k1 == k2
  {
    hide Position;
    assert entry[..|k1| - 1] == k1[..|k1| - 1] && entry[..|k2| - 1] == k2[..|k2| - 1];
    PositionIs(entry, EQUALS, |k1| - 1);
    PositionIs(entry, EQUALS, |k2| - 1);
  }

  /** The entries for one key, in order. */
  function For(entries: seq<Bytes>, key: Bytes): seq<Bytes> {
    if entries == [] then []
    else (if key <= entries[0] then [entries[0]] else []) + For(entries[1..], key)
  }

  lemma {:induction false} ForConcat(a: seq<Bytes>, b: seq<Bytes>, key: Bytes)
    ensures For(a + b, key) == For(a, key) + For(b, key)
  {
    if a == [] {
      assert a + b == b;
    } else {
      assert (a + b)[1..] == a[1..] + b;
      ForConcat(a[1..], b, key);
    }
  }

  lemma {:induction false} WithoutConcat(a: seq<Bytes>, b: seq<Bytes>, key: Bytes)
    ensures Without(a + b, key) == Without(a, key) + Without(b, key)
  {
    if a == [] {
      assert a + b == b;
    } else {
      assert (a + b)[1..] == a[1..] + b;
      WithoutConcat(a[1..], b, key);
    }
  }

  lemma {:induction false} ForAfterWithout(entries: seq<Bytes>, removed: Bytes, key: Bytes)
    requires IsKey(removed) && IsKey(key)
    ensures For(Without(entries, removed), key) == if removed == key then [] else For(entries, key)
  {
    if entries == [] {
    } else {
      ForAfterWithout(entries[1..], removed, key);
      ForConcat(if removed <= entries[0] then [] else [entries[0]], Without(entries[1..], removed), key);
      assert [entries[0]][1..] == [];
      if removed <= entries[0] && key <= entries[0] {
        KeysAreDisjoint(removed, key, entries[0]);
      }
    }
  }

  /** The last override of a key. */
  function LastFor(overrides: seq<Bytes>, key: Bytes): Option<Bytes> {
    if overrides == [] then None
    else
      var last := overrides[|overrides| - 1];
      if KeyOf(last) == key then Some(last) else LastFor(overrides[..|overrides| - 1], key)
  }

  ghost predicate AllKeyed(overrides: seq<Bytes>) {
    forall i :: 0 <= i < |overrides| ==> IsKey(KeyOf(overrides[i]))
  }

  /** A key that was overridden has exactly one entry, the last one set; every other key keeps its entries. */
  lemma {:induction false} OverridesWin(inherited: seq<Bytes>, overrides: seq<Bytes>, key: Bytes)
    requires AllKeyed(overrides) && IsKey(key)
    ensures For(Overridden(inherited, overrides), key) ==
            match LastFor(overrides, key)
            case Some(entry) => [entry]
            case None => For(inherited, key)
  {
    if overrides == [] {
    } else {
      var n := |overrides| - 1;
      var last, init := overrides[n], overrides[..n];
      OverridesWin(inherited, init, key);
      ForAfterWithout(Overridden(inherited, init), KeyOf(last), key);
      ForConcat(Without(Overridden(inherited, init), KeyOf(last)), [last], key);
      assert [last][1..] == [];
      if key <= last && key != KeyOf(last) {
        KeysAreDisjoint(key, KeyOf(last), last);
      }
    }
  }

  // ---- In terms of the calls of `env` ----

  datatype Setting = Setting(name: Bytes, value: Bytes)

  /** The overrides that a sequence of `env` calls leaves. */
  function Entries(calls: seq<Setting>): (entries: seq<Bytes>)
    ensures |entries| == |calls| && forall i :: 0 <= i < |calls| ==> entries[i] == Entry(calls[i].name, calls[i].value)
  {
    seq(|calls|, i requires 0 <= i < |calls| => Entry(calls[i].name, calls[i].value))
  }

  function LastValue(calls: seq<Setting>, name: Bytes): Option<Bytes> {
    if calls == [] then None
    else
      var last := calls[|calls| - 1];
      if last.name == name then Some(last.value) else LastValue(calls[..|calls| - 1], name)
  }

  /** Whatever the name and value, the override has a key. */
  lemma EntryIsKeyed(name: Bytes, value: Bytes)
    ensures IsKey(KeyOf(Entry(name, value)))
  {
    hide Position;
    var entry := Entry(name, value);
    assert entry[|name|] == EQUALS;
    var at := Position(entry, EQUALS).value;
    assert entry[..at + 1][..at] == entry[..at];
  }

  lemma OneMoreCall(calls: seq<Setting>)
    requires calls != []
    ensures var n := |calls| - 1;
      Entries(calls)[n] == Entry(calls[n].name, calls[n].value) && Entries(calls)[..n] == Entries(calls[..n])
  {
    hide Entry;
  }

  lemma SameKey(a: Bytes, b: Bytes)
    ensures a + [EQUALS] == b + [EQUALS] <==> a == b
  {
    assert (a + [EQUALS])[..|a|] == a && (b + [EQUALS])[..|b|] == b;
    assert |a + [EQUALS]| == |a| + 1 && |b + [EQUALS]| == |b| + 1;
  }

  /** What looking the key up from the end does, one entry at a time. */
  lemma LastForOneMore(entries: seq<Bytes>, key: Bytes)
    requires entries != []
    ensures var n := |entries| - 1;
      LastFor(entries, key) == if KeyOf(entries[n]) == key then Some(entries[n]) else LastFor(entries[..n], key)
    ensures LastFor([], key) == None
  {
    hide KeyOf;
  }

  lemma {:induction false} LastForIsLastValue(calls: seq<Setting>, name: Bytes)
    requires EQUALS !in name && forall i :: 0 <= i < |calls| ==> EQUALS !in calls[i].name
    ensures LastFor(Entries(calls), name + [EQUALS]) ==
            match LastValue(calls, name) case Some(value) => Some(Entry(name, value)) case None => None
  {
    if calls == [] {
      assert Entries(calls) == [];
    } else {
      hide KeyOf, Entry, Entries, LastFor, IsKey;
      var n := |calls| - 1;
      var last := calls[n];
      OneMoreCall(calls);
      LastForOneMore(Entries(calls), name + [EQUALS]);
      KeyOfEntry(last.name, last.value);
      SameKey(last.name, name);
      LastForIsLastValue(calls[..n], name);
    }
  }

  /**
   After any sequence of `env` calls with `=`-free names, each name that was set has exactly one entry, with the last
   value given, and each other name keeps the entries it inherited.
   */
  lemma LastCallWins(inherited: seq<Bytes>, calls: seq<Setting>, name: Bytes)
    requires EQUALS !in name && forall i :: 0 <= i < |calls| ==> EQUALS !in calls[i].name
    ensures For(Overridden(inherited, Entries(calls)), name + [EQUALS]) ==
            match LastValue(calls, name)
            case Some(value) => [name + [EQUALS] + value]
            case None => For(inherited, name + [EQUALS])
  {
    hide KeyOf, IsKey;
    KeyOfEntry(name, []);
    forall i | 0 <= i < |calls| ensures IsKey(KeyOf(Entries(calls)[i])) {
      EntryIsKeyed(calls[i].name, calls[i].value);
    }
    LastForIsLastValue(calls, name);
    OverridesWin(inherited, Entries(calls), name + [EQUALS]);
  }

  // ---- What is inherited ----

  predicate Named(entry: Bytes, overrides: seq<Bytes>) {
    exists i :: 0 <= i < |overrides| && KeyOf(overrides[i]) <= entry
  }

  /** The inherited entries that no override names, in their order. */
  function Untouched(inherited: seq<Bytes>, overrides: seq<Bytes>): seq<Bytes> {
    if inherited == [] then []
    else (if Named(inherited[0], overrides) then [] else [inherited[0]]) + Untouched(inherited[1..], overrides)
  }

  lemma NamedByOneMore(entry: Bytes, overrides: seq<Bytes>, last: Bytes)
    ensures Named(entry, overrides + [last]) <==> Named(entry, overrides) || KeyOf(last) <= entry
  {
    hide KeyOf;
    var all := overrides + [last];
    assert all[|overrides|] == last;
    if i :| 0 <= i < |overrides| && KeyOf(overrides[i]) <= entry {
      assert all[i] == overrides[i];
    }
  }

  lemma {:induction false} UntouchedByOneMore(inherited: seq<Bytes>, overrides: seq<Bytes>, last: Bytes)
    ensures Untouched(inherited, overrides + [last]) == Without(Untouched(inherited, overrides), KeyOf(last))
  {
    if inherited == [] {
    } else {
      hide KeyOf, Named;
      var e := inherited[0];
      NamedByOneMore(e, overrides, last);
      UntouchedByOneMore(inherited[1..], overrides, last);
      WithoutConcat(if Named(e, overrides) then [] else [e], Untouched(inherited[1..], overrides), KeyOf(last));
      assert [e][1..] == [];
    }
  }

  lemma {:induction false} NothingTouched(inherited: seq<Bytes>)
    ensures Untouched(inherited, []) == inherited
  {
    if inherited == [] {
    } else {
      NothingTouched(inherited[1..]);
    }
  }

  /** The inherited entries come first and keep their order; what follows does not depend on them. */
  lemma {:induction false} InheritedKeepTheirOrder(inherited: seq<Bytes>, overrides: seq<Bytes>)
    ensures Overridden(inherited, overrides) == Untouched(inherited, overrides) + Overridden([], overrides)
  {
    if overrides == [] {
      NothingTouched(inherited);
    } else {
      var n := |overrides| - 1;
      var last, init := overrides[n], overrides[..n];
      assert overrides == init + [last];
      InheritedKeepTheirOrder(inherited, init);
      UntouchedByOneMore(inherited, init, last);
      WithoutConcat(Untouched(inherited, init), Overridden([], init), KeyOf(last));
    }
  }
}
