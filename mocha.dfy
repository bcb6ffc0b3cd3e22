/**
 The state of the mocha-filter module and its operations. The registry
 `checks` and every filter map a caller passes in are JS objects updated in
 place, so they are `FilterTable` objects. The six mocha functions are
 identifiers; the filter members attached to them are kept in `members`,
 a call that reaches a mocha function is appended to `log`, and every
 predicate evaluation to `evaluations`.
 */
module Mocha {
  import opened Filters
  import opened Chain

  /** The six mocha globals that get filter members. */
  datatype MochaFn = Describe | It | Before | After | BeforeEach | AfterEach

  /** The order in which `setupMocha` visits them. */
  const Functions: seq<MochaFn> := [Describe, It, Before, After, BeforeEach, AfterEach]

  /** `setupMocha` reaches every mocha function. */
  lemma EveryFunctionVisited()
    ensures forall f: MochaFn :: f in Functions
  {
    forall f: MochaFn ensures f in Functions {
      match f
      case Describe => assert Functions[0] == f;
      case It => assert Functions[1] == f;
      case Before => assert Functions[2] == f;
      case After => assert Functions[3] == f;
      case BeforeEach => assert Functions[4] == f;
      case AfterEach => assert Functions[5] == f;
    }
  }

  /** An argument passed through to a mocha function (a title, a callback);
      its content is never inspected, so it is an opaque number. */
  type Arg = nat

  /** One call that reached a mocha function. */
  datatype Invocation = Invocation(fn: MochaFn, args: seq<Arg>)

  /** A JS object used as a map from filter names to predicates. */
  class FilterTable {
    var entries: map<Name, Predicate>

    constructor (entries: map<Name, Predicate>)
      ensures this.entries == entries
    {
      this.entries := entries;
    }
  }

  /** A filter member: the closure that `ext(fn, notFailed)` creates for
      `key`. It keeps a reference to the filter map it was built from and
      looks `key` up there only when it is called. */
  datatype Member = Member(fn: MochaFn, scope: FilterTable, key: Name, notFailed: bool)

  /** `ext(fn, notFailed)`: one member per name of the filter map, all
      carrying the same function, map and flag. */
  function Ext(fn: MochaFn, scope: FilterTable, notFailed: bool, names: set<Name>): (r: map<Name, Member>)
    ensures r.Keys == names
    ensures forall k :: k in r ==> r[k] == Member(fn, scope, k, notFailed)
  {
    map k | k in names :: Member(fn, scope, k, notFailed)
  }

  /** `after` is `before` with the members `ext(f, true)` builds from `scope`
      attached to every mocha function `f`: one per name in `names`,
      replacing a member of the same name; the other members stay. */
  ghost predicate Attached(before: map<(MochaFn, Name), Member>, after: map<(MochaFn, Name), Member>, scope: FilterTable, names: set<Name>)
    ensures Attached(before, after, scope, names) ==> forall f, k :: (f, k) in before ==> (f, k) in after
  {
    && (forall f, k :: (f, k) in after <==> (f, k) in before || k in names)
    && (forall f, k :: k in names ==> after[(f, k)] == Member(f, scope, k, true))
    && (forall f, k :: (f, k) in before && k !in names ==> after[(f, k)] == before[(f, k)])
  }

  /** What calling a member produces: nothing (it was given arguments), the
      next set of members (it was called with none), or a TypeError because
      the member's name is no longer a function in its map. */
  datatype CallResult = Returned | Chained(members: map<Name, Member>) | Threw

  /** `addFilter` returns `false` on a protected name and `undefined` otherwise. */
  datatype AddResult = ReturnedFalse | ReturnedUndefined

  /** The predicates found under `names`, in order. */
  function Lookup(table: map<Name, Predicate>, names: seq<Name>): (r: seq<Predicate>)
    requires forall i :: 0 <= i < |names| ==> names[i] in table
    ensures |r| == |names|
    ensures forall i :: 0 <= i < |r| ==> r[i] == table[names[i]]
  {
    seq(|names|, i requires 0 <= i < |names| => table[names[i]])
  }

  /** One more member of a chain over `table`: its predicate is looked up
      after the others, and the flag it carries is its own result and the
      flag so far. */
  lemma ChainOneMore(notFailed: bool, table: map<Name, Predicate>, names: seq<Name>, outcomes: seq<bool>, i: nat)
    requires |outcomes| == |names| && i < |names|
    requires forall j :: 0 <= j <= i ==> names[j] in table
    ensures Lookup(table, names[..i + 1]) == Lookup(table, names[..i]) + [table[names[i]]]
    ensures Carried(notFailed, Results(Lookup(table, names[..i + 1]), outcomes[..i + 1]))
      == (Truthy(table[names[i]], outcomes[i]) && Carried(notFailed, Results(Lookup(table, names[..i]), outcomes[..i])))
  {
    var front := Lookup(table, names[..i]);
    assert Lookup(table, names[..i + 1]) == front + [table[names[i]]];
    assert Results(front + [table[names[i]]], outcomes[..i + 1])
      == Results(front, outcomes[..i]) + [Truthy(table[names[i]], outcomes[i])];
    CarriedStep(notFailed, Results(front, outcomes[..i]), Truthy(table[names[i]], outcomes[i]));
  }

  /** The loaded module: the registry, its protected names, the filter
      members attached to the mocha functions (keyed by function and
      name), the calls that reached a mocha function, and the predicates
      evaluated so far. */
  class FilterModule {
    const checks: FilterTable
    const originalChecks: seq<Name>
    var members: map<(MochaFn, Name), Member>
    var log: seq<Invocation>
    var evaluations: seq<Predicate>

    /** The built-in `ignore` stays registered and protected. */
    ghost predicate Valid()
      reads this, checks
    {
      && originalChecks == OriginalChecks
      && Ignore in checks.entries
      && checks.entries[Ignore] == IgnoreBuiltin
    }

    /** Loading the module: the initial registry, then `setupMocha()`. */
    constructor ()
      ensures Valid() && fresh(checks)
      ensures checks.entries == InitialRegistry()
      ensures Attached(map[], members, checks, {Ignore})
      ensures log == [] && evaluations == []
    {
      checks := new FilterTable(InitialRegistry());
      originalChecks := OriginalChecks;
      members := map[];
      log := [];
      evaluations := [];
      new;
      SetupMocha(null, false);
    }

    /** `setupMocha(supplied, skipOriginals)`. With no map the registry is
        the active map; with a map and falsy `skipOriginals` every registry
        entry is first copied into it; with truthy `skipOriginals` it is used
        as it is. Then every mocha function gets one member per active name,
        and members of other names are left in place. */
    method SetupMocha(supplied: FilterTable?, skipOriginals: bool)
      requires Valid()
      requires supplied != checks
      modifies this, supplied
      ensures Valid()
      ensures checks.entries == old(checks.entries)
      ensures supplied != null && !skipOriginals ==> supplied.entries == Overlay(old(supplied.entries), checks.entries)
      ensures supplied != null && skipOriginals ==> supplied.entries == old(supplied.entries)
      ensures var active := if supplied == null then checks else supplied;
        Attached(old(members), members, active, active.entries.Keys)
      ensures log == old(log) && evaluations == old(evaluations)
    {
      var active: FilterTable;
      if supplied == null {
        active := checks;
      } else {
        active := supplied;
        if !skipOriginals {
          CopyRegistry(supplied);
        }
      }
      PopulateFunctions(active);
    }

    /** The `for…in` loop of `setupMocha` that copies every registry entry
        into the caller's map, overwriting entries of the same name. */
    method CopyRegistry(supplied: FilterTable)
      requires supplied != checks
      modifies supplied
      ensures supplied.entries == Overlay(old(supplied.entries), checks.entries)
    {
      var pending := checks.entries.Keys;
      ghost var done: set<Name> := {};
      while pending != {}
        invariant done + pending == checks.entries.Keys && done !! pending
        invariant supplied.entries.Keys == old(supplied.entries).Keys + done
        invariant forall k :: k in done ==> supplied.entries[k] == checks.entries[k]
        invariant forall k :: k in old(supplied.entries) && k !in done ==> supplied.entries[k] == old(supplied.entries)[k]
        decreases pending
      {
        var key :| key in pending;
        supplied.entries := supplied.entries[key := checks.entries[key]];
        pending := pending - {key};
        done := done + {key};
      }
    }

    /** The loop of `setupMocha` over the six mocha functions: each gets the
        members `ext(fn, true)` builds from `active`. */
    method PopulateFunctions(active: FilterTable)
      modifies this`members
      ensures Attached(old(members), members, active, active.entries.Keys)
    {
      var names := active.entries.Keys;
      var i := 0;
      while i < |Functions|
        invariant 0 <= i <= |Functions|
        invariant forall f, k :: (f, k) in members <==> (f, k) in old(members) || (f in Functions[..i] && k in names)
        invariant forall f, k :: f in Functions[..i] && k in names ==> members[(f, k)] == Member(f, active, k, true)
        invariant forall f, k :: (f, k) in old(members) && !(f in Functions[..i] && k in names) ==> members[(f, k)] == old(members)[(f, k)]
      {
        assert Functions[..i + 1] == Functions[..i] + [Functions[i]];
        Populate(Functions[i], Ext(Functions[i], active, true, names));
        i := i + 1;
      }
      assert Functions[..i] == Functions;
      EveryFunctionVisited();
    }

    /** `populateFunctions` applied to every member `ext` built for `fn`:
        each becomes a property of `fn`, replacing one of the same name. */
    method Populate(fn: MochaFn, extensions: map<Name, Member>)
      modifies this`members
      ensures forall f, k :: (f, k) in members <==> (f, k) in old(members) || (f == fn && k in extensions)
      ensures forall k :: k in extensions ==> members[(fn, k)] == extensions[k]
      ensures forall f, k :: (f, k) in old(members) && !(f == fn && k in extensions) ==> members[(f, k)] == old(members)[(f, k)]
    {
      var pending := extensions.Keys;
      ghost var done: set<Name> := {};
      while pending != {}
        invariant done + pending == extensions.Keys && done !! pending
        invariant forall f, k :: (f, k) in members <==> (f, k) in old(members) || (f == fn && k in done)
        invariant forall k :: k in done ==> members[(fn, k)] == extensions[k]
        invariant forall f, k :: (f, k) in old(members) && !(f == fn && k in done) ==> members[(f, k)] == old(members)[(f, k)]
        decreases pending
      {
        var extension :| extension in pending;
        members := members[(fn, extension) := extensions[extension]];
        pending := pending - {extension};
        done := done + {extension};
      }
    }

    /** `addFilter(name, filter)`: a protected name is refused with `false`
        and nothing changes; any other name is (re)registered and every
        mocha function gets a member for it built from a fresh one-entry
        map; the other members stay. */
    method AddFilter(name: Name, filter: Predicate) returns (r: AddResult)
      requires Valid()
      modifies this, checks
      ensures Valid()
      ensures r == (if name in originalChecks then ReturnedFalse else ReturnedUndefined)
      ensures checks.entries == Register(old(checks.entries), originalChecks, name, filter)
      ensures name in originalChecks ==> members == old(members)
      ensures name !in originalChecks ==> (It, name) in members
      ensures name !in originalChecks ==>
        && fresh(members[(It, name)].scope)
        && members[(It, name)].scope.entries == map[name := filter]
      ensures name !in originalChecks ==> forall f :: (f, name) in members && members[(f, name)] == Member(f, members[(It, name)].scope, name, true)
      ensures forall f, k :: k != name ==> ((f, k) in members <==> (f, k) in old(members))
      ensures forall f, k :: k != name && (f, k) in old(members) ==> members[(f, k)] == old(members)[(f, k)]
      ensures log == old(log) && evaluations == old(evaluations)
    {
      if name in originalChecks {
        return ReturnedFalse;
      }
      checks.entries := checks.entries[name := filter];
      var obj := new FilterTable(map[name := filter]);
      SetupMocha(obj, true);
      return ReturnedUndefined;
    }

    /** `addFilters(filters)`, with `keys` the order of `Object.keys(filters)`:
        `addFilter` for every key but the last. */
    method AddFilters(keys: seq<Name>, filters: map<Name, Predicate>)
      requires Valid()
      requires forall k :: k in filters <==> k in keys
      requires forall i, j :: 0 <= i < j < |keys| ==> keys[i] != keys[j]
      modifies this, checks
      ensures Valid()
      ensures checks.entries == RegisterAll(old(checks.entries), originalChecks, AddFiltersKeys(keys), filters)
      ensures forall f, k :: k in AddFiltersKeys(keys) && k !in originalChecks ==>
        && (f, k) in members
        && members[(f, k)].fn == f && members[(f, k)].key == k && members[(f, k)].notFailed
        && fresh(members[(f, k)].scope)
        && members[(f, k)].scope.entries == map[k := filters[k]]
      ensures forall f, k :: k !in AddFiltersKeys(keys) || k in originalChecks ==>
        ((f, k) in members <==> (f, k) in old(members)) && ((f, k) in members ==> members[(f, k)] == old(members)[(f, k)])
      ensures log == old(log) && evaluations == old(evaluations)
    {
      var visited := AddFiltersKeys(keys);
      ghost var done: set<Name> := {};
      var i := 0;
      while i < |keys| - 1
        invariant 0 <= i <= |visited|
        invariant Valid()
        invariant checks.entries == RegisterAll(old(checks.entries), originalChecks, visited[..i], filters)
        invariant forall k :: k in done <==> k in visited[..i]
        invariant forall f, k :: k in done && k !in originalChecks ==>
          && (f, k) in members
          && members[(f, k)].fn == f && members[(f, k)].key == k && members[(f, k)].notFailed
          && fresh(members[(f, k)].scope)
          && members[(f, k)].scope.entries == map[k := filters[k]]
        invariant forall f, k :: k !in done || k in originalChecks ==>
          ((f, k) in members <==> (f, k) in old(members)) && ((f, k) in members ==> members[(f, k)] == old(members)[(f, k)])
        invariant log == old(log) && evaluations == old(evaluations)
      {
        var key := keys[i];
        assert visited[..i + 1] == visited[..i] + [key];
        assert key !in done;
        var _ := AddFilter(key, filters[key]);
        done := done + {key};
        i := i + 1;
      }
      assert visited[..i] == visited;
    }

    /** Calling a member. Its predicate is evaluated once. With arguments,
        the mocha function is invoked with them exactly when the predicate
        passed and the member's flag is set; without, the result is a fresh
        set of members over the same map carrying `passed && notFailed`. */
    method Call(m: Member, args: seq<Arg>, outcome: bool) returns (r: CallResult)
      modifies this`log, this`evaluations
      ensures m.key !in m.scope.entries ==> r == Threw && log == old(log) && evaluations == old(evaluations)
      ensures m.key in m.scope.entries ==>
        var p := m.scope.entries[m.key];
        var passed := Truthy(p, outcome);
        && evaluations == old(evaluations) + [p]
        && (|args| > 0 ==> r == Returned && log == old(log) + (if passed && m.notFailed then [Invocation(m.fn, args)] else []))
        && (|args| == 0 ==> r == Chained(Ext(m.fn, m.scope, passed && m.notFailed, m.scope.entries.Keys)) && log == old(log))
    {
      if m.key !in m.scope.entries {
        return Threw;
      }
      var p := m.scope.entries[m.key];
      evaluations := evaluations + [p];
      var passed := Truthy(p, outcome);
      if |args| > 0 {
        if passed && m.notFailed {
          log := log + [Invocation(m.fn, args)];
        }
        r := Returned;
      } else {
        r := Chained(Ext(m.fn, m.scope, passed && m.notFailed, m.scope.entries.Keys));
      }
    }

    /** A test file evaluating `fn.first().rest[0]()...rest[n-1](args)`:
        every member but the last is called with no arguments and returns the
        next set of members, the last is called with `args`. Each predicate
        is evaluated once, in order, and the mocha function runs exactly when
        the flags carried along the chain say so. A name that is not in the
        member's map makes the chain throw. */
    method InvokeChain(first: Member, rest: seq<Name>, outcomes: seq<bool>, args: seq<Arg>) returns (r: CallResult)
      requires |outcomes| == |rest| + 1 && |args| > 0
      modifies this`log, this`evaluations
      ensures var names := [first.key] + rest;
        if forall i :: 0 <= i < |names| ==> names[i] in first.scope.entries then
          var ps := Lookup(first.scope.entries, names);
          && r == Returned
          && evaluations == old(evaluations) + ps
          && log == old(log) + (if Carried(first.notFailed, Results(ps, outcomes)) then [Invocation(first.fn, args)] else [])
        else
          r == Threw && log == old(log)
    {
      var names := [first.key] + rest;
      var table := first.scope.entries;
      var current := first;
      var i := 0;
      while i < |rest|
        invariant 0 <= i <= |rest|
        invariant first.scope.entries == table
        invariant forall j :: 0 <= j < i ==> names[j] in table
        invariant current == Member(first.fn, first.scope, names[i], current.notFailed)
        invariant evaluations == old(evaluations) + Lookup(table, names[..i])
        invariant current.notFailed == Carried(first.notFailed, Results(Lookup(table, names[..i]), outcomes[..i]))
        invariant log == old(log)
      {
        var step := Call(current, [], outcomes[i]);
        if step.Threw? {
          return Threw;
        }
        if rest[i] !in step.members {
          assert names[i + 1] !in table;
          return Threw;
        }
        ChainOneMore(first.notFailed, table, names, outcomes, i);
        current := step.members[rest[i]];
        i := i + 1;
      }
      r := Call(current, args, outcomes[i]);
      if r.Returned? {
        ChainOneMore(first.notFailed, table, names, outcomes, i);
        assert names[..i + 1] == names && outcomes[..i + 1] == outcomes;
      }
    }

    /** A test file registering a filter and then writing
        `fn.<name>(args)` for one of the six mocha functions: the registry
        and the members change as `addFilter` says, the new predicate is
        evaluated exactly once, and the function runs exactly when that
        evaluation is truthy. */
    method AddFilterThenCall(name: Name, filter: Predicate, fn: MochaFn, args: seq<Arg>, outcome: bool) returns (r: CallResult)
      requires Valid()
      requires name !in originalChecks && |args| > 0
      modifies this, checks
      ensures Valid()
      ensures checks.entries == Register(old(checks.entries), originalChecks, name, filter)
      ensures (It, name) in members
      ensures fresh(members[(It, name)].scope) && members[(It, name)].scope.entries == map[name := filter]
      ensures forall f :: (f, name) in members && members[(f, name)] == Member(f, members[(It, name)].scope, name, true)
      ensures forall f, k :: k != name ==> ((f, k) in members <==> (f, k) in old(members))
      ensures forall f, k :: k != name && (f, k) in old(members) ==> members[(f, k)] == old(members)[(f, k)]
      ensures r == Returned
      ensures evaluations == old(evaluations) + [filter]
      ensures log == old(log) + (if Truthy(filter, outcome) then [Invocation(fn, args)] else [])
    {
      var _ := AddFilter(name, filter);
      r := Call(members[(fn, name)], args, outcome);
    }
  }
}
