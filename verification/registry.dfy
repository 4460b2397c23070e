/** The command registry `onView` builds: every extension's commands folded
    into an unchained table (each entry with its `isEnabled` twin) and a
    chained table, with unique names and two reserved ones. */
module Registry {
  import opened Wrappers
  import opened Errors

  /** A command factory: property `key` of what extension `extension`'s
      `createCommands()` returned. */
  datatype Factory = Factory(extension: string, key: string)

  /** An `unchainedFactory` closure: the factory and whether it passes the
      view's dispatch (`shouldDispatch`, false for `isEnabled`). */
  datatype Invoker = Invoker(factory: Factory, shouldDispatch: bool)

  datatype UnchainedEntry = UnchainedEntry(command: Invoker, isEnabled: Invoker)

  /** A `chainedFactory` closure, or the terminal `run`. */
  datatype ChainLink = Link(factory: Factory) | Run

  /** An extension as the registry sees it: its name and, when it has
      `createCommands`, the command names it returns, in order. */
  datatype Extension = Extension(name: string, commands: Option<seq<string>>)

  /** `forbiddenNames`. */
  const ForbiddenNames: set<string> := {"run", "chain"}

  datatype Tables = Tables(names: set<string>, unchained: map<string, UnchainedEntry>, chained: map<string, ChainLink>)

  const EmptyTables: Tables := Tables({}, map[], map[])

  /** The names set tracks both tables, and every entry has the shape
      `addCommands` gives it. */
  ghost predicate WellFormed(t: Tables) {
    && t.unchained.Keys == t.names
    && t.chained.Keys == t.names
    && forall n :: n in t.names ==>
         && t.unchained[n].command.shouldDispatch
         && !t.unchained[n].isEnabled.shouldDispatch
         && t.unchained[n].command.factory == t.unchained[n].isEnabled.factory
         && t.chained[n] == Link(t.unchained[n].command.factory)
  }

  /** One iteration of `addCommands`: the uniqueness test, then the
      forbidden-name test, then one entry in each table. */
  function AddCommand(t: Tables, name: string, f: Factory): (r: Result<Tables, Failure>)
    ensures r.Failure? <==> name in t.names || name in ForbiddenNames
    ensures name in t.names ==> r == Failure(DuplicateCommandName(name))
    ensures name !in t.names && name in ForbiddenNames ==> r == Failure(ForbiddenCommandName(name))
    ensures r.Success? ==> r.value.names == t.names + {name}
    ensures r.Success? ==> name in r.value.unchained && r.value.unchained[name] == UnchainedEntry(Invoker(f, true), Invoker(f, false))
    ensures r.Success? ==> forall n :: n in t.unchained && n != name ==> n in r.value.unchained && r.value.unchained[n] == t.unchained[n]
    ensures WellFormed(t) && r.Success? ==> WellFormed(r.value)
  {
    if name in t.names then Failure(DuplicateCommandName(name))
    else if name in ForbiddenNames then Failure(ForbiddenCommandName(name))
    else
      Success(Tables(
        t.names + {name},
        t.unchained[name := UnchainedEntry(Invoker(f, true), Invoker(f, false))],
        t.chained[name := Link(f)]))
  }

  /** `addCommands` over a list of entries: in order, stopping at the first failure. */
  function RegisterAll(t: Tables, entries: seq<(string, Factory)>): Result<Tables, Failure>
    decreases |entries|
  {
    if entries == [] then Success(t)
    else
      match AddCommand(t, entries[0].0, entries[0].1)
      case Failure(e) => Failure(e)
      case Success(t') => RegisterAll(t', entries[1..])
  }

  /** The entries an extension contributes: its command names in order, each
      with the factory of that extension's command of the same name. */
  function EntriesOf(e: Extension): (r: seq<(string, Factory)>)
    ensures e.commands.None? ==> r == []
    ensures e.commands.Some? ==> |r| == |e.commands.value|
    ensures e.commands.Some? ==> forall i :: 0 <= i < |r| ==> r[i].0 == e.commands.value[i]
    ensures forall i :: 0 <= i < |r| ==> r[i].1.extension == e.name && r[i].1.key == r[i].0
  {
    if e.commands.None? then []
    else seq(|e.commands.value|, i requires 0 <= i < |e.commands.value| =>
           (e.commands.value[i], Factory(e.name, e.commands.value[i])))
  }

  /** The `onView` loop: `addCommands` for every extension that has commands. */
  function CollectCommands(t: Tables, extensions: seq<Extension>): Result<Tables, Failure>
    decreases |extensions|
  {
    if extensions == [] then Success(t)
    else if extensions[0].commands.None? then CollectCommands(t, extensions[1..])
    else
      match RegisterAll(t, EntriesOf(extensions[0]))
      case Failure(e) => Failure(e)
      case Success(t') => CollectCommands(t', extensions[1..])
  }

  function AllEntries(extensions: seq<Extension>): seq<(string, Factory)>
    decreases |extensions|
  {
    if extensions == [] then [] else EntriesOf(extensions[0]) + AllEntries(extensions[1..])
  }

  // ---------------------------------------------------------------------------
  // What registration guarantees

  /** Adding two lists is adding the first and then, if that succeeded, the second. */
  lemma {:induction false} RegisterAllAppend(t: Tables, a: seq<(string, Factory)>, b: seq<(string, Factory)>)
    ensures RegisterAll(t, a + b) ==
      match RegisterAll(t, a)
      case Failure(e) => Failure(e)
      case Success(t') => RegisterAll(t', b)
    decreases |a|
  {
    if a == [] {
      assert a + b == b;
    } else {
      assert (a + b)[0] == a[0] && (a + b)[1..] == a[1..] + b;
      match AddCommand(t, a[0].0, a[0].1)
      case Failure(e) =>
      case Success(t') => RegisterAllAppend(t', a[1..], b);
    }
  }

  /** Registering extension by extension is registering all their commands in order. */
  lemma {:induction false} CollectIsFlat(t: Tables, extensions: seq<Extension>)
    ensures CollectCommands(t, extensions) == RegisterAll(t, AllEntries(extensions))
    decreases |extensions|
  {
    if extensions != [] {
      RegisterAllAppend(t, EntriesOf(extensions[0]), AllEntries(extensions[1..]));
      match RegisterAll(t, EntriesOf(extensions[0]))
      case Failure(e) =>
      case Success(t') => CollectIsFlat(t', extensions[1..]);
    }
  }

  /** The names of a list of entries are new, not reserved and pairwise distinct. */
  ghost predicate Registrable(names: set<string>, entries: seq<(string, Factory)>) {
    && (forall i :: 0 <= i < |entries| ==> entries[i].0 !in names && entries[i].0 !in ForbiddenNames)
    && (forall i, j :: 0 <= i < j < |entries| ==> entries[i].0 != entries[j].0)
  }

  lemma RegistrableCons(names: set<string>, entries: seq<(string, Factory)>)
    requires entries != []
    ensures Registrable(names, entries) <==>
      && entries[0].0 !in names && entries[0].0 !in ForbiddenNames
      && Registrable(names + {entries[0].0}, entries[1..])
  {
    var rest := entries[1..];
    if entries[0].0 !in names && entries[0].0 !in ForbiddenNames && Registrable(names + {entries[0].0}, rest) {
      forall i, j | 0 <= i < j < |entries| ensures entries[i].0 != entries[j].0 {
        assert rest[j - 1] == entries[j];
        if i > 0 { assert rest[i - 1] == entries[i]; }
      }
      forall i | 0 <= i < |entries| ensures entries[i].0 !in names && entries[i].0 !in ForbiddenNames {
        if i > 0 { assert rest[i - 1] == entries[i]; }
      }
    }
    if Registrable(names, entries) {
      forall i | 0 <= i < |rest| ensures rest[i].0 !in names + {entries[0].0} {
        assert rest[i] == entries[i + 1];
      }
      forall i, j | 0 <= i < j < |rest| ensures rest[i].0 != rest[j].0 {
        assert rest[i] == entries[i + 1] && rest[j] == entries[j + 1];
      }
    }
  }

  /** Registration succeeds exactly when the names are new, distinct and unreserved. */
  lemma {:induction false} RegisterAllSucceeds(t: Tables, entries: seq<(string, Factory)>)
    ensures RegisterAll(t, entries).Success? <==> Registrable(t.names, entries)
    decreases |entries|
  {
    if entries != [] {
      RegistrableCons(t.names, entries);
      match AddCommand(t, entries[0].0, entries[0].1)
      case Failure(e) =>
      case Success(t') => RegisterAllSucceeds(t', entries[1..]);
    }
  }

  /** Registration keeps the tables well formed. */
  lemma {:induction false} RegisterAllWellFormed(t: Tables, entries: seq<(string, Factory)>)
    requires WellFormed(t) && RegisterAll(t, entries).Success?
    ensures WellFormed(RegisterAll(t, entries).value)
    decreases |entries|
  {
    if entries != [] {
      RegisterAllWellFormed(AddCommand(t, entries[0].0, entries[0].1).value, entries[1..]);
    }
  }

  /** After a successful registration the names are the old ones plus
      exactly the registered ones. */
  lemma {:induction false} RegisterAllNames(t: Tables, entries: seq<(string, Factory)>)
    requires RegisterAll(t, entries).Success?
    ensures forall n :: n in RegisterAll(t, entries).value.names <==>
      n in t.names || exists i :: 0 <= i < |entries| && entries[i].0 == n
    decreases |entries|
  {
    if entries != [] {
      var rest := entries[1..];
      var t' := AddCommand(t, entries[0].0, entries[0].1).value;
      RegisterAllNames(t', rest);
      var r := RegisterAll(t', rest).value;
      forall n ensures n in r.names <==> n in t.names || exists i :: 0 <= i < |entries| && entries[i].0 == n {
        if exists i :: 0 <= i < |entries| && entries[i].0 == n {
          var i :| 0 <= i < |entries| && entries[i].0 == n;
          if i > 0 { assert rest[i - 1] == entries[i]; }
        }
        if exists i :: 0 <= i < |rest| && rest[i].0 == n {
          var i :| 0 <= i < |rest| && rest[i].0 == n;
          assert entries[i + 1] == rest[i];
        }
      }
    }
  }

  /** After a successful registration each registered name has a command
      entry that dispatches and an `isEnabled` entry that does not, both
      built from its own factory; entries of other names are kept. */
  lemma {:induction false} RegisterAllEntries(t: Tables, entries: seq<(string, Factory)>)
    requires RegisterAll(t, entries).Success?
    ensures forall i :: 0 <= i < |entries| ==>
      && entries[i].0 in RegisterAll(t, entries).value.unchained
      && RegisterAll(t, entries).value.unchained[entries[i].0] == UnchainedEntry(Invoker(entries[i].1, true), Invoker(entries[i].1, false))
    ensures forall n :: n in t.unchained && (forall i :: 0 <= i < |entries| ==> entries[i].0 != n) ==>
      n in RegisterAll(t, entries).value.unchained && RegisterAll(t, entries).value.unchained[n] == t.unchained[n]
    decreases |entries|
  {
    if entries != [] {
      var rest := entries[1..];
      var t' := AddCommand(t, entries[0].0, entries[0].1).value;
      RegisterAllEntries(t', rest);
      RegisterAllSucceeds(t, entries);
      var r := RegisterAll(t', rest).value;
      forall i | 0 <= i < |entries|
        ensures entries[i].0 in r.unchained
        ensures r.unchained[entries[i].0] == UnchainedEntry(Invoker(entries[i].1, true), Invoker(entries[i].1, false))
      {
        if i > 0 { assert rest[i - 1] == entries[i]; }
        else { assert forall j :: 0 <= j < |rest| ==> rest[j] == entries[j + 1]; }
      }
      forall n | n in t.unchained && (forall i :: 0 <= i < |entries| ==> entries[i].0 != n)
        ensures n in r.unchained && r.unchained[n] == t.unchained[n]
      {
        assert forall j :: 0 <= j < |rest| ==> rest[j] == entries[j + 1];
      }
    }
  }

  lemma {:induction false} AllEntriesAppend(a: seq<Extension>, b: seq<Extension>)
    ensures AllEntries(a + b) == AllEntries(a) + AllEntries(b)
    decreases |a|
  {
    if a == [] {
      assert a + b == b;
    } else {
      assert (a + b)[0] == a[0] && (a + b)[1..] == a[1..] + b;
      AllEntriesAppend(a[1..], b);
    }
  }

  /** Where the `j`-th command of extension `k` sits among all entries. */
  lemma EntryPosition(extensions: seq<Extension>, k: nat, j: nat)
    requires k < |extensions| && j < |EntriesOf(extensions[k])|
    ensures |AllEntries(extensions[..k])| + j < |AllEntries(extensions)|
    ensures AllEntries(extensions)[|AllEntries(extensions[..k])| + j] == EntriesOf(extensions[k])[j]
  {
    assert extensions == extensions[..k] + ([extensions[k]] + extensions[k + 1..]);
    AllEntriesAppend(extensions[..k], [extensions[k]] + extensions[k + 1..]);
    AllEntriesAppend([extensions[k]], extensions[k + 1..]);
    assert AllEntries([extensions[k]]) == EntriesOf(extensions[k]) + AllEntries([]);
  }

  /** The entries of an earlier extension all come before those of a later one. */
  lemma PrefixEntriesGrow(extensions: seq<Extension>, k1: nat, k2: nat)
    requires k1 < k2 <= |extensions|
    ensures |AllEntries(extensions[..k1])| + |EntriesOf(extensions[k1])| <= |AllEntries(extensions[..k2])|
  {
    assert extensions[..k2] == extensions[..k1] + ([extensions[k1]] + extensions[k1 + 1..k2]);
    AllEntriesAppend(extensions[..k1], [extensions[k1]] + extensions[k1 + 1..k2]);
    AllEntriesAppend([extensions[k1]], extensions[k1 + 1..k2]);
    assert AllEntries([extensions[k1]]) == EntriesOf(extensions[k1]) + AllEntries([]);
  }

  /** A command named `run` or `chain` can never be registered, so the
      terminal `run` is never shadowed. */
  lemma ReservedNameRefused(extensions: seq<Extension>, k: nat, name: string)
    requires k < |extensions| && extensions[k].commands.Some?
    requires name in extensions[k].commands.value && name in ForbiddenNames
    ensures CollectCommands(EmptyTables, extensions).Failure?
  {
    var j :| 0 <= j < |extensions[k].commands.value| && extensions[k].commands.value[j] == name;
    EntryPosition(extensions, k, j);
    CollectIsFlat(EmptyTables, extensions);
    RegisterAllSucceeds(EmptyTables, AllEntries(extensions));
  }

  /** The positions among all entries of command `j1` of extension `k1` and
      command `j2` of a later extension `k2`. */
  lemma EntryPositions(extensions: seq<Extension>, k1: nat, j1: nat, k2: nat, j2: nat) returns (i1: nat, i2: nat)
    requires k1 < k2 < |extensions|
    requires j1 < |EntriesOf(extensions[k1])| && j2 < |EntriesOf(extensions[k2])|
    ensures i1 < i2 < |AllEntries(extensions)|
    ensures AllEntries(extensions)[i1] == EntriesOf(extensions[k1])[j1]
    ensures AllEntries(extensions)[i2] == EntriesOf(extensions[k2])[j2]
  {
    EntryPosition(extensions, k1, j1);
    EntryPosition(extensions, k2, j2);
    PrefixEntriesGrow(extensions, k1, k2);
    i1 := |AllEntries(extensions[..k1])| + j1;
    i2 := |AllEntries(extensions[..k2])| + j2;
  }

  /** Two extensions offering the same command name make registration fail. */
  lemma DuplicateNameRefused(extensions: seq<Extension>, k1: nat, k2: nat, name: string)
    requires k1 < k2 < |extensions| && extensions[k1].commands.Some? && extensions[k2].commands.Some?
    requires name in extensions[k1].commands.value && name in extensions[k2].commands.value
    ensures CollectCommands(EmptyTables, extensions).Failure?
  {
    var c1, c2 := extensions[k1].commands.value, extensions[k2].commands.value;
    var j1 :| 0 <= j1 < |c1| && c1[j1] == name;
    var j2 :| 0 <= j2 < |c2| && c2[j2] == name;
    var i1, i2 := EntryPositions(extensions, k1, j1, k2, j2);
    var all := AllEntries(extensions);
    assert all[i1].0 == name == all[i2].0;
    assert !Registrable(EmptyTables.names, all);
    CollectIsFlat(EmptyTables, extensions);
    RegisterAllSucceeds(EmptyTables, all);
  }

  /** The tables `onView` ends with are well formed and never name `run`
      or `chain`, so the terminal `run` can be added beside them. */
  lemma CollectWellFormed(extensions: seq<Extension>)
    requires CollectCommands(EmptyTables, extensions).Success?
    ensures WellFormed(CollectCommands(EmptyTables, extensions).value)
    ensures forall n :: n in CollectCommands(EmptyTables, extensions).value.names ==> n !in ForbiddenNames
  {
    var all := AllEntries(extensions);
    CollectIsFlat(EmptyTables, extensions);
    RegisterAllWellFormed(EmptyTables, all);
    RegisterAllNames(EmptyTables, all);
    RegisterAllSucceeds(EmptyTables, all);
  }

  /** The mutable records `onView` fills: `names`, `unchained`, `chained`. */
  class CommandTables {
    var names: set<string>
    var unchained: map<string, UnchainedEntry>
    var chained: map<string, ChainLink>

    function Value(): Tables
      reads this
    {
      Tables(names, unchained, chained)
    }

    constructor ()
      ensures Value() == EmptyTables
    {
      names, unchained, chained := {}, map[], map[];
    }

    /** `addCommands`, filling the records in place. On a failure the
        records are left as far as the loop got; `onView` discards them. */
    method AddCommands(entries: seq<(string, Factory)>) returns (r: Outcome<Failure>)
      modifies this
      ensures r.Pass? <==> RegisterAll(old(Value()), entries).Success?
      ensures r.Pass? ==> Value() == RegisterAll(old(Value()), entries).value
      ensures r.Fail? ==> r.error == RegisterAll(old(Value()), entries).error
    {
      var i := 0;
      while i < |entries|
        invariant 0 <= i <= |entries|
        invariant RegisterAll(old(Value()), entries) == RegisterAll(Value(), entries[i..])
      {
        assert entries[i..][0] == entries[i] && entries[i..][1..] == entries[i + 1..];
        var (name, command) := entries[i];
        if name in names {
          return Fail(DuplicateCommandName(name));
        }
        names := names + {name};
        if name in ForbiddenNames {
          return Fail(ForbiddenCommandName(name));
        }
        unchained := unchained[name := UnchainedEntry(Invoker(command, true), Invoker(command, false))];
        chained := chained[name := Link(command)];
        i := i + 1;
      }
      assert entries[i..] == [];
      r := Pass;
    }
  }
}
