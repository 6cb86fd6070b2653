/** Waiting for activity of runs: waits registered in shared sets, woken or disposed in place. */
module RunActivity {

  /** One `Set` of wake functions; waits keep a reference to each set they joined. */
  class WaiterSet {
    var members: set<Wait>

    constructor ()
      ensures members == {}
    {
      members := {};
    }
  }

  /** One call of `waitForRunActivity`: live from its registration until it is woken, cancelled or
      disposed. */
  class Wait {
    const subscriptions: map<string, WaiterSet>
    var live: bool
    var woken: bool

    constructor (subscriptions: map<string, WaiterSet>)
      ensures this.subscriptions == subscriptions && !live && !woken
    {
      this.subscriptions, live, woken := subscriptions, false, false;
    }
  }

  /** Different run ids of a wait have different sets. */
  predicate Separate(subscriptions: map<string, WaiterSet>) {
    forall q, r :: q in subscriptions && r in subscriptions && subscriptions[q] == subscriptions[r] ==> q == r
  }

  class Waiters {
    var byRun: map<string, WaiterSet>
    ghost var all: set<Wait>
    ghost var sets: set<WaiterSet>

    /** `gone` are sets already taken out of the map; `w` may still stand in its sets for `ids`. */
    ghost predicate Consistent(gone: set<WaiterSet>, w: Wait?, ids: set<string>)
      reads this, all`live, sets`members
    {
      && gone <= sets && Known() && Mapped(gone) && Placed(w, ids) && Registered(gone)
    }

    /** The sets that waits subscribed to are known, one for each of its run ids. */
    ghost predicate Known()
      reads this
    {
      && (forall x, r :: x in all && r in x.subscriptions ==> x.subscriptions[r] in sets)
      && (forall x :: x in all ==> Separate(x.subscriptions))
    }

    /** The map holds known sets, none of them empty, gone or mapped twice. */
    ghost predicate Mapped(gone: set<WaiterSet>)
      reads this, sets`members
    {
      && (forall r :: r in byRun ==> byRun[r] in sets && byRun[r] !in gone && byRun[r].members != {})
      && (forall q, r :: q in byRun && r in byRun && byRun[q] == byRun[r] ==> q == r)
    }

    /** Who stands in a mapped set is a live wait on its run id, or `w`. */
    ghost predicate Placed(w: Wait?, ids: set<string>)
      reads this, all`live, sets`members
    {
      forall r, x :: r in byRun && byRun[r] in sets && x in byRun[r].members ==>
        && x in all
        && r in x.subscriptions && x.subscriptions[r] == byRun[r]
        && (x.live || (x == w && r in ids))
    }

    /** A live wait stands in each set it subscribed to, which is in the map or gone from it. */
    ghost predicate Registered(gone: set<WaiterSet>)
      reads this, all`live, sets`members
    {
      forall x: Wait, r {:trigger x.subscriptions[r]} ::
        x in all && x.live && r in x.subscriptions && x.subscriptions[r] in sets ==>
          && x in x.subscriptions[r].members
          && ((r in byRun && byRun[r] == x.subscriptions[r]) || x.subscriptions[r] in gone)
    }

    /** Every live wait is registered under each of its run ids, the map holds live waits only, and no
        empty set remains in it. */
    ghost predicate Valid()
      reads this, all`live, sets`members
    {
      Consistent({}, null, {})
    }

    ghost function Live(): set<Wait>
      reads this, all`live
    {
      set x | x in all && x.live
    }

    constructor ()
      ensures Valid() && all == {} && Live() == {}
    {
      byRun, all, sets := map[], {}, {};
    }

    /** One set that `w` joined: `w` leaves it, and it leaves the map if it is empty and still there. */
    method Leave(w: Wait, r: string, ghost gone: set<WaiterSet>, ghost ids: set<string>)
      requires Consistent(gone, w, ids) && w in all && !w.live && r in w.subscriptions && r in ids
      modifies this`byRun, {w.subscriptions[r]}`members
      ensures Consistent(gone, w, ids - {r})
      ensures w.subscriptions[r].members == old(w.subscriptions[r].members) - {w}
    {
      var s := w.subscriptions[r];
      s.members := s.members - {w};
      assert forall x: Wait, q {:trigger x.subscriptions[q]} :: x in all && x.live && q in x.subscriptions ==>
        x in x.subscriptions[q].members && (x.subscriptions[q] == s ==> s.members != {});
      if s.members == {} && r in byRun && byRun[r] == s {
        byRun := byRun - {r};
      }
    }

    /** A set a wait subscribed to is known, and no two of its run ids share one. */
    lemma OwnSets(gone: set<WaiterSet>, v: Wait?, ids: set<string>, w: Wait)
      requires Consistent(gone, v, ids) && w in all
      ensures forall r :: r in w.subscriptions ==> w.subscriptions[r] in sets
      ensures Separate(w.subscriptions)
    {
    }

    /** The set of a run id in the map holds exactly the live waits on it. */
    lemma MembersAreLiveWaits(runId: string)
      requires Valid()
      ensures forall x :: x in all ==>
        ((x.live && runId in x.subscriptions) <==> (runId in byRun && x in byRun[runId].members))
      ensures runId in byRun ==> forall x :: x in byRun[runId].members ==>
        x in all && x.live && runId in x.subscriptions && x.subscriptions[runId] == byRun[runId]
    {
    }

    /** A wait ends: until it has left its sets, it may still stand in each of them. */
    method End(w: Wait, ghost gone: set<WaiterSet>)
      requires Consistent(gone, null, {}) && w in all
      modifies w`live
      ensures !w.live && Consistent(gone, w, w.subscriptions.Keys)
    {
      w.live := false;
    }

    lemma AllLeft(gone: set<WaiterSet>, w: Wait)
      requires Consistent(gone, w, {})
      ensures Consistent(gone, null, {})
    {
    }

    /** Takes a wait out of its sets, and a set that empties out of the map, unless another set has
        taken its place there. Disposing a wait that is no longer live changes nothing. */
    method Dispose(w: Wait, ghost gone: set<WaiterSet>)
      requires Consistent(gone, null, {}) && w in all
      modifies this`byRun, w`live, sets`members
      ensures Consistent(gone, null, {})
      ensures !w.live
      ensures forall r :: r in w.subscriptions ==> w.subscriptions[r].members == old(w.subscriptions[r].members) - {w}
    {
      hide Consistent;
      End(w, gone);
      var ids := w.subscriptions.Keys;
      while ids != {}
        invariant ids <= w.subscriptions.Keys
        invariant Consistent(gone, w, ids) && !w.live
        invariant forall r :: r in w.subscriptions ==>
          w.subscriptions[r].members == if r in ids then old(w.subscriptions[r].members)
                                        else old(w.subscriptions[r].members) - {w}
        decreases ids
      {
        var r :| r in ids;
        OwnSets(gone, w, ids, w);
        Leave(w, r, gone, ids);
        ids := ids - {r};
      }
      AllLeft(gone, w);
    }

    /** Takes the set of a run id out of the map, with its members still in it. */
    method Detach(runId: string) returns (waiters: WaiterSet)
      requires Valid() && runId in byRun
      modifies this`byRun
      ensures Consistent({waiters}, null, {}) && waiters == old(byRun[runId])
      ensures waiters in sets
    {
      waiters := byRun[runId];
      byRun := byRun - {runId};
    }

    lemma EmptySetIsGone(s: WaiterSet)
      requires Consistent({s}, null, {}) && s.members == {}
      ensures Valid()
    {
    }

    /** Wakes every live wait on `runId`, and no other. */
    method Notify(runId: string)
      requires Valid()
      modifies this`byRun, all, sets`members
      ensures Valid()
      ensures forall x :: x in all ==> (x.live <==> old(x.live) && runId !in x.subscriptions)
      ensures forall x :: x in all ==> (x.woken <==> old(x.woken) || (old(x.live) && runId in x.subscriptions))
    {
      hide Valid, Consistent;
      MembersAreLiveWaits(runId);
      if runId !in byRun {
        return;
      }
      var waiters := Detach(runId);
      var pending := waiters.members;
      ghost var members := pending;
      while pending != {}
        invariant Consistent({waiters}, null, {})
        invariant pending <= members && waiters.members == pending
        invariant forall x :: x in members ==> x in all && runId in x.subscriptions && x.subscriptions[runId] == waiters
        invariant forall x :: x in all && x !in members - pending ==> x.live == old(x.live) && x.woken == old(x.woken)
        invariant forall x :: x in members - pending ==> !x.live && x.woken
        decreases pending
      {
        var w :| w in pending;
        Dispose(w, {waiters});
        w.woken := true;
        pending := pending - {w};
      }
      EmptySetIsGone(waiters);
    }

    /** One run id of a new wait: its set goes into the map if it is not there yet, and the wait into it. */
    method Enter(w: Wait, r: string, ghost done: set<string>)
      requires Consistent({}, w, done) && w in all && !w.live && r in w.subscriptions
      requires if r in byRun then byRun[r] == w.subscriptions[r]
               else forall q :: q in byRun ==> byRun[q] != w.subscriptions[r]
      requires r !in byRun ==> w.subscriptions[r].members == {}
      modifies this`byRun, {w.subscriptions[r]}`members
      ensures Consistent({}, w, done + {r})
      ensures byRun == old(byRun)[r := w.subscriptions[r]]
      ensures w.subscriptions[r].members == old(w.subscriptions[r].members) + {w}
    {
      var s := w.subscriptions[r];
      byRun := byRun[r := s];
      s.members := s.members + {w};
      assert Mapped({});
      assert Placed(w, done + {r});
      assert Registered({});
    }

    /** The set of `r` in the map, or a new one. */
    method SetFor(r: string) returns (s: WaiterSet)
      requires Valid()
      modifies this`sets
      ensures Valid() && sets == old(sets) + {s}
      ensures if r in byRun then s == byRun[r] else fresh(s) && s.members == {}
    {
      if r in byRun {
        s := byRun[r];
      } else {
        s := new WaiterSet();
        sets := sets + {s};
      }
    }

    lemma RegisteredSets()
      requires Valid()
      ensures forall r :: r in byRun ==> byRun[r] in sets
      ensures forall q, r :: q in byRun && r in byRun && byRun[q] == byRun[r] ==> q == r
    {
    }

    /** A wait that has joined none of its sets yet. */
    method Admit(subscriptions: map<string, WaiterSet>) returns (w: Wait)
      requires Valid()
      requires forall r :: r in subscriptions ==> subscriptions[r] in sets
      requires Separate(subscriptions)
      modifies this`all
      ensures fresh(w) && w.subscriptions == subscriptions && !w.live && !w.woken
      ensures all == old(all) + {w} && Consistent({}, w, {})
    {
      w := new Wait(subscriptions);
      all := all + {w};
    }

    /** Registers one wait under each of the run ids, in one synchronous step. */
    method WaitForRunActivity(runIds: set<string>) returns (w: Wait)
      requires Valid()
      modifies this, sets`members
      ensures Valid() && fresh(w) && w.live && !w.woken && w.subscriptions.Keys == runIds
      ensures all == old(all) + {w}
    {
      hide Valid, Consistent;
      RegisteredSets();
      var todo := runIds;
      var subscriptions: map<string, WaiterSet> := map[];
      while todo != {}
        invariant Valid() && todo <= runIds && subscriptions.Keys == runIds - todo
        invariant byRun == old(byRun) && all == old(all) && old(sets) <= sets
        invariant fresh(sets - old(sets))
        invariant forall r :: r in subscriptions ==> subscriptions[r] in sets
        invariant forall r :: r in subscriptions ==> if r in byRun then subscriptions[r] == byRun[r]
                                                     else subscriptions[r] in sets - old(sets) && subscriptions[r].members == {}
        invariant Separate(subscriptions)
        decreases todo
      {
        var r :| r in todo;
        var s := SetFor(r);
        subscriptions := subscriptions[r := s];
        todo := todo - {r};
      }
      w := Admit(subscriptions);
      Join(w);
    }

    /** `w` stands in its sets for `done`, and these are in the map. */
    ghost predicate Stands(w: Wait, done: set<string>)
      reads this, w.subscriptions.Values
    {
      forall r :: r in done && r in w.subscriptions ==>
        r in byRun && byRun[r] == w.subscriptions[r] && w in w.subscriptions[r].members
    }

    /** The sets of `w` for `todo` are those in the map, or empty ones that are not in it yet. */
    ghost predicate Awaits(w: Wait, todo: set<string>)
      reads this, w.subscriptions.Values
    {
      forall r :: r in todo && r in w.subscriptions ==>
        if r in byRun then byRun[r] == w.subscriptions[r]
        else w.subscriptions[r].members == {} && forall q :: q in byRun ==> byRun[q] != w.subscriptions[r]
    }

    /** A wait that stands in each of its sets becomes live. */
    method GoLive(w: Wait)
      requires Consistent({}, w, w.subscriptions.Keys) && w in all
      requires Stands(w, w.subscriptions.Keys)
      modifies w`live
      ensures Valid() && w.live
    {
      w.live := true;
    }

    /** Puts a new wait into all of its sets; from then on it is live. */
    method Join(w: Wait)
      requires Consistent({}, w, {}) && w in all && !w.live && !w.woken
      requires Awaits(w, w.subscriptions.Keys)
      modifies this`byRun, w`live, w.subscriptions.Values`members
      ensures Valid() && w.live
    {
      hide Consistent;
      var todo := w.subscriptions.Keys;
      ghost var done: set<string> := {};
      while todo != {}
        invariant done == w.subscriptions.Keys - todo && todo <= w.subscriptions.Keys
        invariant Consistent({}, w, done) && !w.live
        invariant Stands(w, done) && Awaits(w, todo)
        decreases todo
      {
        var r :| r in todo;
        OwnSets({}, w, done, w);
        assert forall q :: q in w.subscriptions && q != r ==> w.subscriptions[q] != w.subscriptions[r];
        Enter(w, r, done);
        todo := todo - {r};
        done := done + {r};
      }
      assert done == w.subscriptions.Keys;
      GoLive(w);
    }
  }
}
