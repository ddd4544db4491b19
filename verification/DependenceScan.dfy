/**
 The dependence scan of reg_dependency, one (producer, source slot) pair at a time, computes the
 declarative linking of `RegisterScheduler`: each source slot is linked to the youngest older
 incomplete writer, and to no other.
 */
module DependenceScan {
  import opened RegisterScheduler

  /** reg_RAW_dependency on a match: p gains the link, the consumer i counts it. */
  function LinkOne(rob: seq<Entry>, p: nat, i: nat, j: nat): (r: seq<Entry>)
    requires p < |rob| && i < |rob| && j < SOURCES
    ensures |r| == |rob|
  {
    var e, c := rob[p], rob[i];
    rob[p := e.(isProducer := true, dependents := e.dependents + {i}, slotDeps := e.slotDeps[j := e.slotDeps[j] + {i}])]
       [i := c.(regReady := false, numDep := c.numDep + 1, checked := c.checked[j := true])]
  }

  /** The scan links slot j of i to p. */
  predicate Hits(rob: seq<Entry>, p: nat, i: nat, j: nat)
    requires p < |rob| && i < |rob| && j < SOURCES
  {
    rob[p].executed != Completed && !rob[i].checked[j] && Writes(rob[p], rob[i].src[j])
  }

  lemma {:induction false} YoungestExists(s: Core, i: int, j: nat, lo: int, q: int)
    requires InWindow(s, i) && j < SOURCES
    requires PendingWriter(s, q, s.rob[i].src[j]) && lo <= Age(s, q) < Age(s, i)
    ensures exists p :: Produces(s, p, i, j, lo)
    decreases Age(s, i) - Age(s, q)
  {
    if forall r :: PendingWriter(s, r, s.rob[i].src[j]) && Age(s, r) < Age(s, i) ==> Age(s, r) <= Age(s, q) {
      assert Produces(s, q, i, j, lo);
    } else {
      var r :| PendingWriter(s, r, s.rob[i].src[j]) && Age(s, r) < Age(s, i) && Age(s, r) > Age(s, q);
      YoungestExists(s, i, j, lo, r);
    }
  }

  /** An incomplete writer younger than age a means the scan has fed the slot before reaching a. */
  lemma FedEarlier(s: Core, i: int, slot: nat, a: int, q: int)
    requires InWindow(s, i) && slot < SOURCES
    requires PendingWriter(s, q, s.rob[i].src[slot]) && a < Age(s, q) < Age(s, i)
    ensures Fed(s, i, slot, a, slot)
  {
    YoungestExists(s, i, slot, a + 1, q);
    var y :| Produces(s, y, i, slot, a + 1);
    assert Found(s, y, i, slot, a, slot);
  }

  /** The pair (p, slot) is linked by the scan exactly when p is the youngest incomplete writer. */
  lemma HitsIffProduces(s: Core, i: nat, p: nat, slot: nat)
    requires Shape(s) && InWindow(s, i) && InWindow(s, p) && Age(s, p) < Age(s, i) && slot < SOURCES
    requires s.rob[i].checked == NONE_CHECKED
    ensures Hits(LinkedRob(s, i, Age(s, p), slot), p, i, slot) <==> Produces(s, p, i, slot, Age(s, p))
  {
    var a := Age(s, p);
    var rob := LinkedRob(s, i, a, slot);
    assert rob[p] == AsProducer(s, p, i, a, slot) && rob[i] == AsConsumer(s, i, a, slot);
    assert rob[i].checked[slot] <==> Fed(s, i, slot, a, slot);
    if Hits(rob, p, i, slot) {
      assert PendingWriter(s, p, s.rob[i].src[slot]);
      forall q | PendingWriter(s, q, s.rob[i].src[slot]) && Age(s, q) < Age(s, i) ensures Age(s, q) <= a {
        if Age(s, q) > a {
          FedEarlier(s, i, slot, a, q);
        }
      }
    }
    if Produces(s, p, i, slot, a) {
      forall q ensures !Found(s, q, i, slot, a, slot) {
        assert Produces(s, q, i, slot, a + 1) ==> Age(s, q) <= a;
      }
    }
  }

  /** Handling one more slot at p finds p itself, if it produces that slot, and nothing else. */
  lemma FoundStep(s: Core, i: nat, p: nat, slot: nat, q: int, j: int)
    requires Shape(s) && InWindow(s, i) && InWindow(s, p) && Age(s, p) < Age(s, i) && slot < SOURCES
    ensures Found(s, q, i, j, Age(s, p), slot + 1) <==>
      Found(s, q, i, j, Age(s, p), slot) || (q == p && j == slot && Produces(s, p, i, slot, Age(s, p)))
  {
  }

  lemma LinksStep(s: Core, i: nat, p: nat, slot: nat)
    requires Shape(s) && InWindow(s, i) && InWindow(s, p) && Age(s, p) < Age(s, i) && slot < SOURCES
    ensures var old', new' := NewLinks(s, i, Age(s, p), slot), NewLinks(s, i, Age(s, p), slot + 1);
      if Produces(s, p, i, slot, Age(s, p)) then new' != {} && |new'| == |old'| + 1 else new' == old'
  {
    var a, x0 := Age(s, p), (p as int, slot as int);
    var was, now := NewLinks(s, i, a, slot), NewLinks(s, i, a, slot + 1);
    forall x ensures x in now <==> x in was || (x == x0 && Produces(s, p, i, slot, a)) {
      FoundStep(s, i, p, slot, x.0, x.1);
    }
    if Produces(s, p, i, slot, a) {
      assert x0 !in was;
      assert now == was + {x0};
    } else {
      assert now == was;
    }
  }

  lemma ProducerSlot(s: Core, i: nat, p: nat, slot: nat, q: nat)
    requires Shape(s) && InWindow(s, i) && InWindow(s, p) && Age(s, p) < Age(s, i) && slot < SOURCES
    requires q < |s.rob| && q != i
    ensures var d := AsProducer(s, q, i, Age(s, p), slot);
      AsProducer(s, q, i, Age(s, p), slot + 1) ==
      if q == p && Produces(s, p, i, slot, Age(s, p))
      then d.(isProducer := true, dependents := d.dependents + {i}, slotDeps := d.slotDeps[slot := d.slotDeps[slot] + {i}])
      else d
  {
    var a, up := Age(s, p), slot + 1;
    forall j ensures Found(s, q, i, j, a, up) <==>
      Found(s, q, i, j, a, slot) || (q == p && j == slot && Produces(s, p, i, slot, a))
    {
      FoundStep(s, i, p, slot, q, j);
    }
    var d, e := AsProducer(s, q, i, a, slot), AsProducer(s, q, i, a, slot + 1);
    if q == p && Produces(s, p, i, slot, a) {
      assert Found(s, q, i, slot, a, slot + 1);
      assert e.slotDeps == d.slotDeps[slot := d.slotDeps[slot] + {i}];
    } else {
      assert Feeds(s, q, i, a, up) <==> Feeds(s, q, i, a, slot);
      assert e.slotDeps == d.slotDeps;
    }
  }

  /** Slot j counts as checked once some producer has been found for it. */
  lemma CheckedSlot(s: Core, i: nat, p: nat, slot: nat, j: nat)
    requires Shape(s) && InWindow(s, i) && InWindow(s, p) && Age(s, p) < Age(s, i) && slot < SOURCES
    ensures Fed(s, i, j, Age(s, p), slot + 1) <==>
      Fed(s, i, j, Age(s, p), slot) || (j == slot && Produces(s, p, i, slot, Age(s, p)))
  {
    var a, up := Age(s, p), slot + 1;
    forall q ensures Found(s, q, i, j, a, up) <==>
      Found(s, q, i, j, a, slot) || (q == p && j == slot && Produces(s, p, i, slot, a))
    {
      FoundStep(s, i, p, slot, q, j);
    }
    assert j == slot && Produces(s, p, i, slot, a) ==> Found(s, p, i, j, a, up);
  }

  lemma CheckedStep(s: Core, i: nat, p: nat, slot: nat)
    requires Shape(s) && InWindow(s, i) && InWindow(s, p) && Age(s, p) < Age(s, i) && slot < SOURCES
    ensures var was := AsConsumer(s, i, Age(s, p), slot).checked;
      AsConsumer(s, i, Age(s, p), slot + 1).checked ==
      if Produces(s, p, i, slot, Age(s, p)) then was[slot := true] else was
  {
    var a := Age(s, p);
    var was, now := AsConsumer(s, i, a, slot).checked, AsConsumer(s, i, a, slot + 1).checked;
    forall j | 0 <= j < SOURCES
      ensures now[j] <==> was[j] || (j == slot && Produces(s, p, i, slot, a))
    {
      CheckedSlot(s, i, p, slot, j);
    }
  }

  lemma ConsumerSlot(s: Core, i: nat, p: nat, slot: nat)
    requires Shape(s) && InWindow(s, i) && InWindow(s, p) && Age(s, p) < Age(s, i) && slot < SOURCES
    ensures var d := AsConsumer(s, i, Age(s, p), slot);
      AsConsumer(s, i, Age(s, p), slot + 1) ==
      if Produces(s, p, i, slot, Age(s, p))
      then d.(regReady := false, numDep := d.numDep + 1, checked := d.checked[slot := true])
      else d
  {
    LinksStep(s, i, p, slot);
    CheckedStep(s, i, p, slot);
  }

  /** One inner iteration of reg_dependency advances the declarative linking by one slot. */
  lemma SlotStep(s: Core, i: nat, p: nat, slot: nat)
    requires Shape(s) && InWindow(s, i) && InWindow(s, p) && Age(s, p) < Age(s, i) && slot < SOURCES
    requires s.rob[i].checked == NONE_CHECKED
    ensures var rob := LinkedRob(s, i, Age(s, p), slot);
      LinkedRob(s, i, Age(s, p), slot + 1) == if Hits(rob, p, i, slot) then LinkOne(rob, p, i, slot) else rob
  {
    var a := Age(s, p);
    HitsIffProduces(s, i, p, slot);
    var rob, next := LinkedRob(s, i, a, slot), LinkedRob(s, i, a, slot + 1);
    var goal := if Hits(rob, p, i, slot) then LinkOne(rob, p, i, slot) else rob;
    forall q | 0 <= q < |s.rob| ensures next[q] == goal[q] {
      if q == i {
        ConsumerSlot(s, i, p, slot);
      } else {
        ProducerSlot(s, i, p, slot, q);
      }
    }
  }

  lemma SameFound(s: Core, i: nat, lo: int, upto: int, lo': int, upto': int)
    requires forall q, j :: Found(s, q, i, j, lo, upto) <==> Found(s, q, i, j, lo', upto')
    ensures LinkedRob(s, i, lo, upto) == LinkedRob(s, i, lo', upto')
  {
    assert NewLinks(s, i, lo, upto) == NewLinks(s, i, lo', upto');
    var a, b := LinkedRob(s, i, lo, upto), LinkedRob(s, i, lo', upto');
    forall q | 0 <= q < |s.rob| ensures a[q] == b[q] {
      if q == i {
        assert AsConsumer(s, q, lo, upto).checked == AsConsumer(s, q, lo', upto').checked;
      } else {
        assert AsProducer(s, q, i, lo, upto).slotDeps == AsProducer(s, q, i, lo', upto').slotDeps;
      }
    }
  }

  /** Moving on to the next older entry. */
  lemma RowStep(s: Core, i: nat, lo: int)
    ensures LinkedRob(s, i, lo, 0) == LinkedRob(s, i, lo + 1, SOURCES)
  {
    SameFound(s, i, lo, 0, lo + 1, SOURCES);
  }

  /** A completed entry produces nothing, so the scan may skip it. */
  lemma SkipCompleted(s: Core, i: nat, p: nat)
    requires Shape(s) && InWindow(s, i) && InWindow(s, p) && s.rob[p].executed == Completed
    ensures LinkedRob(s, i, Age(s, p), SOURCES) == LinkedRob(s, i, Age(s, p), 0)
  {
    var a := Age(s, p);
    forall q, j ensures Found(s, q, i, j, a, SOURCES) <==> Found(s, q, i, j, a, 0) {
      if 0 <= j < SOURCES && Produces(s, q, i, j, a) { assert q != p; }
    }
    SameFound(s, i, a, SOURCES, a, 0);
  }

  lemma ScanStart(s: Core, i: nat)
    requires InWindow(s, i)
    ensures LinkedRob(s, i, Age(s, i), SOURCES) == s.rob[i := s.rob[i].(regReady := true)]
  {
    var rob := LinkedRob(s, i, Age(s, i), SOURCES);
    assert forall q, j :: !Found(s, q, i, j, Age(s, i), SOURCES);
    assert NewLinks(s, i, Age(s, i), SOURCES) == {};
    forall q | 0 <= q < |s.rob| ensures rob[q] == s.rob[i := s.rob[i].(regReady := true)][q] {
      if q == i {
        assert rob[q].checked == s.rob[q].checked;
      } else {
        assert rob[q].slotDeps == s.rob[q].slotDeps;
      }
    }
  }
}
