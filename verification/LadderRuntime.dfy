/** The runtime's ladder sync, with its grouping, sorting and cancelling loops, proved to leave
    exactly the outcome that `Ladder.SyncOutcome` describes. */
module LadderRuntime {
  import opened Common
  import opened Sorting
  import opened PaperExecution
  import opened PaperEngine
  import opened Ladder

  // ----- Distinct lists stay distinct when sorted -----

  lemma {:induction false} NoDuplicatesCounts(s: seq<string>)
    requires NoDuplicates(s)
    ensures forall x :: multiset(s)[x] <= 1
  {
    if s != [] {
      var init := s[..|s| - 1];
      NoDuplicatesCounts(init);
      assert s == init + [s[|s| - 1]];
      assert s[|s| - 1] !in init;
    }
  }

  lemma CountsNoDuplicates(s: seq<string>)
    requires forall x :: multiset(s)[x] <= 1
    ensures NoDuplicates(s)
  {
    forall i, j | 0 <= i < j < |s| ensures s[i] != s[j] {
      assert s == s[..j] + s[j..];
      assert s[i] in s[..j] && s[j] in s[j..];
      assert multiset(s)[s[i]] == multiset(s[..j])[s[i]] + multiset(s[j..])[s[i]];
      assert s[i] == s[j] ==> multiset(s)[s[i]] >= 2;
    }
  }

  /** Newest first: the sort key of a group. */
  function Age(p: Paper): string -> real {
    (id: string) => if id in p.open && p.open[id] < |p.orders| then -p.orders[p.open[id]].createdAt else 0.0
  }

  /** Sorting a group keeps every member, once. */
  lemma SortedMembers(p: Paper, symbol: string, key: string)
    requires p.WellFormed()
    ensures var sorted := SortBy(Group(p, symbol, key, |p.keys|), Age(p));
            && NoDuplicates(sorted)
            && forall id :: id in sorted <==> OnRung(p, symbol, id, key)
  {
    var ids := Group(p, symbol, key, |p.keys|);
    SortByFacts(ids, Age(p));
    GroupNoDuplicates(p, symbol, key, |p.keys|);
    NoDuplicatesCounts(ids);
    CountsNoDuplicates(SortBy(ids, Age(p)));
    assert p.keys[..|p.keys|] == p.keys;
    hide NoDuplicates, SortBy, Age, OrderKey;
    forall id ensures id in SortBy(ids, Age(p)) <==> OnRung(p, symbol, id, key) {
      SortByElements(ids, Age(p), id);
    }
  }

  lemma GroupMember(p: Paper, symbol: string, key: string, j: nat)
    requires p.WellFormed() && j < |Group(p, symbol, key, |p.keys|)|
    ensures var id := Group(p, symbol, key, |p.keys|)[j];
            id in p.open && Age(p)(id) == -OpenOrder(p, id).createdAt
  {
    hide NoDuplicates, OrderKey;
    assert Group(p, symbol, key, |p.keys|)[j] in Group(p, symbol, key, |p.keys|);
  }

  /** It puts the leader first. */
  lemma SortedLeader(p: Paper, symbol: string, key: string)
    requires p.WellFormed() && Group(p, symbol, key, |p.keys|) != []
    ensures var sorted := SortBy(Group(p, symbol, key, |p.keys|), Age(p));
            sorted != [] && forall id :: Leads(p, symbol, key, id) <==> id == sorted[0]
  {
    hide Paper.WellFormed, SortBy, Group, OrderKey, Age, OpenOrder;
    var ids := Group(p, symbol, key, |p.keys|);
    var i := SortByHead(ids, Age(p));
    forall j | 0 <= j < |ids| ensures ids[j] in p.open && Age(p)(ids[j]) == -OpenOrder(p, ids[j]).createdAt {
      GroupMember(p, symbol, key, j);
    }
    assert Newest(p, ids, i) && Leads(p, symbol, key, ids[i]);
  }

  /** What the sorted group of a desired rung is: its orders once each, the newest first, and whether the
      newest is kept. */
  lemma RungSorted(s: Sync, key: string, gone: seq<string>)
    requires s.p.WellFormed() && key in s.desired && Group(s.p, s.symbol, key, |s.p.keys|) != []
    requires forall id :: OnRung(s.p, s.symbol, id, key) ==> id !in gone
    ensures var sorted := SortBy(Group(s.p, s.symbol, key, |s.p.keys|), Age(s.p));
            && sorted != [] && sorted[0] in s.p.open
            && NoDuplicates(sorted) && NoDuplicates(sorted[1..])
            && (forall id <- sorted :: id in s.p.open && id !in gone)
            && (forall id <- sorted[1..] :: id in s.p.open && id !in gone)
            && var newest := OpenOrder(s.p, sorted[0]);
               var goes := s.now - newest.createdAt >= s.settings.maxOrderAge
                           || Drifted(newest.intent, s.desired[key], s.settings);
               && (goes <==> s.Refreshed(key))
               && (forall id :: OnRung(s.p, s.symbol, id, key) && s.Stays(id) <==> id == sorted[0] && !goes)
               && forall id :: id in (if goes then sorted else sorted[1..]) <==>
                               OnRung(s.p, s.symbol, id, key) && !s.Stays(id)
  {
    hide SortBy, Group, Leads, Drifted, FreshFor, Age, OrderKey, Sync.Stays, Sync.Refreshed;
    var sorted := SortBy(Group(s.p, s.symbol, key, |s.p.keys|), Age(s.p));
    SortedMembers(s.p, s.symbol, key);
    SortedLeader(s.p, s.symbol, key);
    assert sorted[0] in sorted && sorted == [sorted[0]] + sorted[1..];
    RungOutcome(s, key, sorted[0]);
    UndriftedExactly(OpenOrder(s.p, sorted[0]), s.desired[key], s.now, s.settings);
  }

  lemma {:induction false} GroupNoDuplicates(p: Paper, symbol: string, key: string, n: nat)
    requires p.WellFormed() && n <= |p.keys|
    ensures NoDuplicates(Group(p, symbol, key, n))
  {
    if n > 0 {
      GroupNoDuplicates(p, symbol, key, n - 1);
      assert p.keys[n - 1] !in p.keys[..n - 1];
      hide OrderKey;
    }
  }

  // ----- Progress of the first pass over the dictionary -----

  /** `gone` lists the orders of the symbol without a rung key among the first n entries. */
  ghost predicate Orphans(p: Paper, symbol: string, n: nat, gone: seq<string>)
    requires p.WellFormed() && n <= |p.keys|
  {
    && NoDuplicates(gone)
    && forall id :: id in gone <==> id in p.keys[..n] && OpenOrder(p, id).intent.symbol == symbol
                                    && OrderKey(OpenOrder(p, id).intent).None?
  }

  /** `groups` files the first n entries by rung key, under the keys of `order`. */
  ghost predicate Grouped(p: Paper, symbol: string, n: nat, groups: map<string, seq<string>>, order: seq<string>)
    requires p.WellFormed() && n <= |p.keys|
  {
    && NoDuplicates(order)
    && (forall key :: key in order <==> key in groups)
    && (forall key :: Filed(groups, key) == Group(p, symbol, key, n))
    && (forall key <- groups :: groups[key] != [])
  }

  function Filed(groups: map<string, seq<string>>, key: string): seq<string> {
    if key in groups then groups[key] else []
  }

  lemma OrphansNext(p: Paper, symbol: string, n: nat, gone: seq<string>)
    requires p.WellFormed() && n < |p.keys| && Orphans(p, symbol, n, gone)
    ensures p.keys[n] !in gone
    ensures var i := OpenOrder(p, p.keys[n]).intent;
            Orphans(p, symbol, n + 1, if i.symbol == symbol && OrderKey(i).None? then gone + [p.keys[n]] else gone)
  {
    hide OrderKey;
    assert p.keys[..n + 1] == p.keys[..n] + [p.keys[n]];
    assert p.keys[n] !in p.keys[..n];
  }

  lemma GroupedNext(p: Paper, symbol: string, n: nat, groups: map<string, seq<string>>, order: seq<string>)
    requires p.WellFormed() && n < |p.keys| && Grouped(p, symbol, n, groups, order)
    ensures var i := OpenOrder(p, p.keys[n]).intent;
            if i.symbol != symbol || OrderKey(i).None? then Grouped(p, symbol, n + 1, groups, order)
            else var key := OrderKey(i).value;
              Grouped(p, symbol, n + 1, groups[key := Filed(groups, key) + [p.keys[n]]],
                      if key in groups then order else order + [key])
  {
    hide Group, OrderKey, Paper.WellFormed, NoDuplicates;
    EntryIsOpen(p, n);
    var id, i := p.keys[n], OpenOrder(p, p.keys[n]).intent;
    if i.symbol != symbol || OrderKey(i).None? {
      forall key ensures Filed(groups, key) == Group(p, symbol, key, n + 1) {
        GroupStep(p, symbol, key, n);
      }
    } else {
      var k := OrderKey(i).value;
      if k !in groups { NoDuplicatesConcat(order, [k]); }
      var groups' := groups[k := Filed(groups, k) + [id]];
      forall key ensures Filed(groups', key) == Group(p, symbol, key, n + 1) {
        assert Filed(groups, key) == Group(p, symbol, key, n);
        GroupStep(p, symbol, key, n);
      }
    }
  }

  lemma GroupStep(p: Paper, symbol: string, key: string, n: nat)
    requires p.WellFormed() && n < |p.keys|
    ensures Group(p, symbol, key, n + 1) ==
            Group(p, symbol, key, n) + if OnRung(p, symbol, p.keys[n], key) then [p.keys[n]] else []
  {
    hide OnRung;
  }

  // ----- Progress of the second pass over the rungs -----

  /** One sync: the engine state it started from, the desired ladder, its clock and settings. */
  datatype Sync = Sync(p: Paper, symbol: string, desired: map<string, Quote>, now: real, settings: Settings) {
    ghost predicate Stays(id: string)
      requires p.WellFormed() && id in p.open
    {
      Survives(p, symbol, desired, now, settings, id)
    }

    ghost predicate KeyHeld(key: string)
      requires p.WellFormed()
    {
      Held(p, symbol, desired, now, settings, key)
    }

    ghost predicate Refreshed(key: string)
      requires p.WellFormed()
    {
      key in desired && Refreshes(p, symbol, desired, now, settings, key)
    }

    /** Different rungs have different quotes. */
    ghost predicate Injective() {
      forall k, l :: k in desired && l in desired && desired[k] == desired[l] ==> k == l
    }

    /** Cancelled so far: orders without a key, and those on finished rungs that do not survive. */
    ghost predicate Cleared(done: seq<string>, gone: seq<string>)
      requires p.WellFormed()
    {
      && NoDuplicates(gone)
      && forall id :: id in gone <==>
                      && id in p.open && OpenOrder(p, id).intent.symbol == symbol
                      && var key := OrderKey(OpenOrder(p, id).intent);
                         key.None? || (key.value in done && !Stays(id))
    }

    /** The desired entries left over after the finished rungs; a refreshed one is among them. */
    ghost predicate LeftOver(done: seq<string>, left: map<string, Quote>)
      requires p.WellFormed()
    {
      && (forall key <- left :: key in desired && left[key] == desired[key])
      && (forall key <- desired :: key in left <==> key !in done || Refreshed(key))
    }

    /** The quotes asked for so far: each finished rung that is not held, once. */
    ghost predicate Asked(done: seq<string>, toPlace: seq<Quote>)
      requires p.WellFormed()
    {
      && (forall key <- desired :: multiset(toPlace)[desired[key]] == if key in done && !KeyHeld(key) then 1 else 0)
      && (forall q <- toPlace :: exists key :: key in desired && desired[key] == q)
    }

    ghost predicate Planned(done: seq<string>, left: map<string, Quote>, toPlace: seq<Quote>)
      requires p.WellFormed()
    {
      LeftOver(done, left) && Asked(done, toPlace) && toPlace == Unheld(p, symbol, desired, now, settings, done)
    }
  }

  lemma NoDuplicatesConcat(a: seq<string>, b: seq<string>)
    requires NoDuplicates(a) && (|b| <= 1 || NoDuplicates(b)) && forall x <- a :: x !in b
    ensures NoDuplicates(a + b)
  {
    forall i, j | 0 <= i < |a| && 0 <= j < |b| ensures a[i] != b[j] {
      assert a[i] in a;
    }
  }

  /** Finishing one rung, given the orders cancelled on it. */
  lemma ClearedNext(s: Sync, done: seq<string>, key: string, gone: seq<string>, added: seq<string>)
    requires s.p.WellFormed() && s.Cleared(done, gone) && key !in done && NoDuplicates(added)
    requires forall id :: id in added <==> OnRung(s.p, s.symbol, id, key) && !s.Stays(id)
    ensures s.Cleared(done + [key], gone + added)
  {
    hide Paper.WellFormed, Survives, OrderKey, NoDuplicates;
    NoDuplicatesConcat(gone, added);
    forall k: string ensures k in done + [key] <==> k in done || k == key {
    }
  }

  /** Only the newest order of a desired rung can survive, and it does when it is fresh. */
  lemma RungOutcome(s: Sync, key: string, newest: string)
    requires s.p.WellFormed() && key in s.desired && OnRung(s.p, s.symbol, newest, key)
    requires forall id :: Leads(s.p, s.symbol, key, id) <==> id == newest
    ensures forall id :: OnRung(s.p, s.symbol, id, key) && s.Stays(id) <==>
                         id == newest && FreshFor(OpenOrder(s.p, newest), s.desired[key], s.now, s.settings)
    ensures s.Refreshed(key) <==> !FreshFor(OpenOrder(s.p, newest), s.desired[key], s.now, s.settings)
  {
    hide Leads, FreshFor, OrderKey, NoDuplicates;
  }

  lemma OrphansCleared(s: Sync, gone: seq<string>)
    requires s.p.WellFormed() && Orphans(s.p, s.symbol, |s.p.keys|, gone)
    ensures s.Cleared([], gone)
  {
    assert s.p.keys[..|s.p.keys|] == s.p.keys;
    hide Survives, OrderKey, NoDuplicates;
  }

  lemma PlannedStart(s: Sync)
    requires s.p.WellFormed()
    ensures s.Planned([], s.desired, [])
  {
  }

  lemma GroupedAt(p: Paper, symbol: string, groups: map<string, seq<string>>, order: seq<string>, j: nat)
    requires p.WellFormed() && Grouped(p, symbol, |p.keys|, groups, order) && j < |order|
    ensures var key := order[j];
            && key in groups && groups[key] == Group(p, symbol, key, |p.keys|) && groups[key] != []
            && order[..j + 1] == order[..j] + [key] && key !in order[..j]
  {
    hide Group, Paper.WellFormed;
    assert Filed(groups, order[j]) == Group(p, symbol, order[j], |p.keys|);
  }

  /** Planning one desired rung: a kept rung is dropped from the left-overs; a refreshed one is asked
      for now and, because it is not dropped, once more at the end. */
  lemma PlannedNext(s: Sync, done: seq<string>, key: string, left: map<string, Quote>, toPlace: seq<Quote>,
                    kept: Option<string>, left': map<string, Quote>, toPlace': seq<Quote>)
    requires s.p.WellFormed() && s.Planned(done, left, toPlace) && s.Injective() && key in s.desired && key !in done
    requires forall id :: kept == Some(id) <==> OnRung(s.p, s.symbol, id, key) && s.Stays(id)
    requires kept.None? <==> s.Refreshed(key)
    requires var q := s.desired[key];
             if kept.None? then left' == left && toPlace' == toPlace + [q]
             else if kept.value != "" then left' == left - {key} && toPlace' == toPlace
             else if q !in toPlace then left' == left - {key} && toPlace' == toPlace + [q]
             else left' == left && toPlace' == toPlace
    ensures s.Planned(done + [key], left', toPlace')
  {
    hide Paper.WellFormed, Sync.Refreshed, Sync.KeyHeld, Sync.Stays, OnRung, Sync.Asked, Unheld, Sync.Injective;
    HeldWhenKept(s, key, kept);
    var q := s.desired[key];
    NotYetAsked(s, done, key, toPlace);
    assert toPlace + [] == toPlace;
    AskedNext(s, done, key, toPlace, if kept.Some? && kept.value != "" then [] else [q]);
    UnheldNext(s, done, key);
  }

  lemma NotYetAsked(s: Sync, done: seq<string>, key: string, toPlace: seq<Quote>)
    requires s.p.WellFormed() && s.Asked(done, toPlace) && key in s.desired && key !in done
    ensures s.desired[key] !in toPlace
  {
    hide Paper.WellFormed, Sync.KeyHeld;
    assert multiset(toPlace)[s.desired[key]] == 0;
  }

  lemma UnheldNext(s: Sync, done: seq<string>, key: string)
    requires s.p.WellFormed()
    ensures Unheld(s.p, s.symbol, s.desired, s.now, s.settings, done + [key])
            == Unheld(s.p, s.symbol, s.desired, s.now, s.settings, done)
               + if key in s.desired && !s.KeyHeld(key) then [s.desired[key]] else []
  {
    hide Held, Paper.WellFormed;
    assert (done + [key])[..|done|] == done;
  }

  lemma AskedNext(s: Sync, done: seq<string>, key: string, toPlace: seq<Quote>, added: seq<Quote>)
    requires s.p.WellFormed() && s.Asked(done, toPlace) && s.Injective() && key in s.desired && key !in done
    requires added == if s.KeyHeld(key) then [] else [s.desired[key]]
    ensures s.Asked(done + [key], toPlace + added)
  {
    hide Paper.WellFormed, Sync.KeyHeld;
    forall k <- s.desired
      ensures multiset(toPlace + added)[s.desired[k]] == if k in done + [key] && !s.KeyHeld(k) then 1 else 0
    {
      AddedCount(toPlace, added, s.desired[k]);
    }
  }

  lemma AddedCount(toPlace: seq<Quote>, added: seq<Quote>, q: Quote)
    ensures multiset(toPlace + added)[q] == multiset(toPlace)[q] + multiset(added)[q]
  {
  }

  lemma HeldWhenKept(s: Sync, key: string, kept: Option<string>)
    requires s.p.WellFormed()
    requires forall id :: kept == Some(id) <==> OnRung(s.p, s.symbol, id, key) && s.Stays(id)
    ensures s.KeyHeld(key) <==> kept.Some? && kept.value != ""
  {
    hide Paper.WellFormed, OnRung, Survives;
  }

  lemma OutsideRung(s: Sync, key: string)
    requires s.p.WellFormed() && key !in s.desired
    ensures var ids := Group(s.p, s.symbol, key, |s.p.keys|);
            && NoDuplicates(ids)
            && (forall id <- ids :: id in s.p.open)
            && forall id :: id in ids <==> OnRung(s.p, s.symbol, id, key) && !s.Stays(id)
  {
    GroupNoDuplicates(s.p, s.symbol, key, |s.p.keys|);
    assert s.p.keys[..|s.p.keys|] == s.p.keys;
    hide Leads, NoDuplicates, OrderKey;
  }

  lemma PlannedOutside(s: Sync, done: seq<string>, key: string, left: map<string, Quote>, toPlace: seq<Quote>)
    requires s.p.WellFormed() && s.Planned(done, left, toPlace) && key !in s.desired
    ensures s.Planned(done + [key], left, toPlace)
  {
    hide Paper.WellFormed, Held, Survives, Unheld;
    UnheldNext(s, done, key);
  }

  /** Each entry left over comes up once at the end. */
  lemma {:induction false} LateOnce(order: seq<string>, m: map<string, Quote>, key: string)
    requires NoDuplicates(order) && key in m && forall k, l :: k in m && l in m && m[k] == m[l] ==> k == l
    ensures multiset(ValuesInOrder(order, m))[m[key]] == if key in order then 1 else 0
  {
    if order != [] {
      var rest := ValuesInOrder(order[1..], m);
      LateOnce(order[1..], m, key);
      assert order[0] !in order[1..];
      assert order[0] in m ==> multiset(ValuesInOrder(order, m)) == multiset{m[order[0]]} + multiset(rest);
    }
  }

  lemma OccupiedIsListed(s: Sync, groups: map<string, seq<string>>, order: seq<string>, id: string, key: string)
    requires s.p.WellFormed() && Grouped(s.p, s.symbol, |s.p.keys|, groups, order) && OnRung(s.p, s.symbol, id, key)
    ensures key in order
  {
    hide NoDuplicates, OrderKey;
    assert s.p.keys[..|s.p.keys|] == s.p.keys;
    assert id in Group(s.p, s.symbol, key, |s.p.keys|);
    assert Filed(groups, key) != [];
  }

  /** The count of one quote over both passes. */
  lemma FinishCount(s: Sync, groups: map<string, seq<string>>, order: seq<string>, desiredOrder: seq<string>,
                    left: map<string, Quote>, early: seq<Quote>, key: string)
    requires s.p.WellFormed() && Grouped(s.p, s.symbol, |s.p.keys|, groups, order) && s.Injective()
    requires s.Planned(order, left, early) && key in s.desired
    requires NoDuplicates(desiredOrder) && forall k :: k in desiredOrder <==> k in s.desired
    ensures multiset(early + ValuesInOrder(desiredOrder, left))[s.desired[key]]
            == TimesAsked(s.p, s.symbol, s.desired, s.now, s.settings, key)
  {
    hide Grouped, NoDuplicates, Paper.WellFormed, Survives, OnRung, Leads;
    var q, late := s.desired[key], ValuesInOrder(desiredOrder, left);
    assert multiset(early + late)[q] == multiset(early)[q] + multiset(late)[q];
    if key in left {
      LateOnce(desiredOrder, left, key);
    } else {
      assert q !in late;
    }
    if s.Refreshed(key) { RefreshedNotHeld(s.p, s.symbol, s.desired, s.now, s.settings, key); }
    if key !in order {
      forall id ensures !OnRung(s.p, s.symbol, id, key) {
        if OnRung(s.p, s.symbol, id, key) { OccupiedIsListed(s, groups, order, id, key); }
      }
    }
  }

  /** What the two passes add up to. */
  lemma FinishSync(s: Sync, groups: map<string, seq<string>>, order: seq<string>, desiredOrder: seq<string>,
                   gone: seq<string>, left: map<string, Quote>, early: seq<Quote>)
    requires s.p.WellFormed() && Grouped(s.p, s.symbol, |s.p.keys|, groups, order) && s.Injective()
    requires s.Cleared(order, gone) && s.Planned(order, left, early)
    requires NoDuplicates(desiredOrder) && forall k :: k in desiredOrder <==> k in s.desired
    ensures SyncOutcome(s.p, s.symbol, s.desired, s.now, s.settings, gone, early + ValuesInOrder(desiredOrder, left))
  {
    hide Grouped, NoDuplicates, Paper.WellFormed, Survives, OrderKey, TimesAsked, Sync.Refreshed, Held;
    forall id | id in s.p.open && OpenOrder(s.p, id).intent.symbol == s.symbol
      ensures id in gone <==> !s.Stays(id)
    {
      var key := OrderKey(OpenOrder(s.p, id).intent);
      if key.Some? {
        OccupiedIsListed(s, groups, order, id, key.value);
      } else {
        KeylessLeaves(s, id);
      }
    }
    forall key <- s.desired
      ensures multiset(early + ValuesInOrder(desiredOrder, left))[s.desired[key]]
              == TimesAsked(s.p, s.symbol, s.desired, s.now, s.settings, key)
    {
      FinishCount(s, groups, order, desiredOrder, left, early, key);
    }
  }

  /** The left-over entries, in the order of the quotes, are those of empty and refreshed rungs. */
  lemma LateWaits(s: Sync, groups: map<string, seq<string>>, order: seq<string>, keys: seq<string>,
                  left: map<string, Quote>, early: seq<Quote>)
    requires s.p.WellFormed() && Grouped(s.p, s.symbol, |s.p.keys|, groups, order) && s.Planned(order, left, early)
    requires forall key <- keys :: key in s.desired
    ensures ValuesInOrder(keys, left) == Waiting(s.p, s.symbol, s.desired, s.now, s.settings, keys)
  {
    hide Grouped, Paper.WellFormed, OnRung, Refreshes, Unheld, Sync.Asked;
    forall key <- s.desired
      ensures key in left <==> (forall id :: !OnRung(s.p, s.symbol, id, key)) || s.Refreshed(key)
    {
      ListedIsOccupied(s, groups, order, key);
      if key !in order {
        forall id ensures !OnRung(s.p, s.symbol, id, key) {
          if OnRung(s.p, s.symbol, id, key) { OccupiedIsListed(s, groups, order, id, key); }
        }
      }
    }
    WaitingValues(s, left, keys);
  }

  lemma ListedIsOccupied(s: Sync, groups: map<string, seq<string>>, order: seq<string>, key: string)
    requires s.p.WellFormed() && Grouped(s.p, s.symbol, |s.p.keys|, groups, order)
    ensures key in order ==> exists id :: OnRung(s.p, s.symbol, id, key)
  {
    hide NoDuplicates, OnRung;
    if key in order {
      assert Filed(groups, key) == Group(s.p, s.symbol, key, |s.p.keys|);
      assert groups[key][0] in Group(s.p, s.symbol, key, |s.p.keys|);
    }
  }

  lemma {:induction false} WaitingValues(s: Sync, left: map<string, Quote>, keys: seq<string>)
    requires s.p.WellFormed() && forall key <- keys :: key in s.desired
    requires forall key <- left :: key in s.desired && left[key] == s.desired[key]
    requires forall key <- s.desired ::
               key in left <==> (forall id :: !OnRung(s.p, s.symbol, id, key)) || s.Refreshed(key)
    ensures ValuesInOrder(keys, left) == Waiting(s.p, s.symbol, s.desired, s.now, s.settings, keys)
  {
    hide OnRung, Refreshes, Paper.WellFormed;
    if keys != [] {
      assert keys[0] in keys && forall key <- keys[1..] :: key in keys;
      WaitingValues(s, left, keys[1..]);
    }
  }

  lemma KeylessLeaves(s: Sync, id: string)
    requires s.p.WellFormed() && id in s.p.open && OrderKey(OpenOrder(s.p, id).intent).None?
    ensures !s.Stays(id)
  {
  }

  // ----- The runtime object -----

  /** The values of a dictionary in its insertion order. */
  function ValuesInOrder(order: seq<string>, m: map<string, Quote>): (values: seq<Quote>)
    ensures forall q :: q in values <==> exists key :: key in order && key in m && m[key] == q
  {
    if order == [] then []
    else
      var rest := ValuesInOrder(order[1..], m);
      assert forall key :: key in order <==> key == order[0] || key in order[1..];
      if order[0] in m then [m[order[0]]] + rest else rest
  }

  /** Where a key comes up first among the quotes. */
  function FirstIndex(symbol: string, quotes: seq<Quote>, key: string): nat {
    if quotes == [] || QuoteKey(symbol, quotes[0]) == key then 0 else 1 + FirstIndex(symbol, quotes[1..], key)
  }

  lemma {:induction false} FirstIndexAt(symbol: string, quotes: seq<Quote>, i: nat)
    requires i < |quotes| && forall q <- quotes[..i] :: QuoteKey(symbol, q) != QuoteKey(symbol, quotes[i])
    ensures FirstIndex(symbol, quotes, QuoteKey(symbol, quotes[i])) == i
  {
    hide QuoteKey;
    if i > 0 {
      assert quotes[0] in quotes[..i];
      assert forall q <- quotes[1..][..i - 1] :: q in quotes[..i];
      FirstIndexAt(symbol, quotes[1..], i - 1);
    }
  }

  /** Keys in the order in which they come up first. */
  ghost predicate FirstSeenOrder(symbol: string, quotes: seq<Quote>, order: seq<string>) {
    forall i, j :: 0 <= i < j < |order| ==> FirstIndex(symbol, quotes, order[i]) < FirstIndex(symbol, quotes, order[j])
  }

  method CollectDesired(symbol: string, quotes: seq<Quote>) returns (desired: map<string, Quote>, order: seq<string>)
    ensures desired == Desired(symbol, quotes)
    ensures NoDuplicates(order) && forall key :: key in order <==> key in desired
    ensures FirstSeenOrder(symbol, quotes, order) && order == KeysInOrder(symbol, quotes)
  {
    hide QuoteKey, FirstIndex, Desired, KeysInOrder, FirstSeenOrder, NoDuplicates;
    desired, order := map[], [];
    NothingDesired(symbol, quotes);
    for i := 0 to |quotes|
      invariant desired == Desired(symbol, quotes[..i])
      invariant NoDuplicates(order) && forall key :: key in order <==> key in desired
      invariant FirstSeenOrder(symbol, quotes, order) && forall key <- order :: FirstIndex(symbol, quotes, key) < i
      invariant order == KeysInOrder(symbol, quotes[..i])
    {
      var key := QuoteKey(symbol, quotes[i]);
      OneMoreQuote(symbol, quotes, i);
      if key !in desired {
        DesiredFacts(symbol, quotes[..i]);
        FirstIndexAt(symbol, quotes, i);
        NoDuplicatesConcat(order, [key]);
        SeenLater(symbol, quotes, order, key, i);
        order := order + [key];
      }
      desired := desired[key := quotes[i]];
    }
    assert quotes[..|quotes|] == quotes;
  }

  lemma NothingDesired(symbol: string, quotes: seq<Quote>)
    ensures Desired(symbol, quotes[..0]) == map[] && KeysInOrder(symbol, quotes[..0]) == []
    ensures NoDuplicates([]) && FirstSeenOrder(symbol, quotes, [])
  {
  }

  lemma OneMoreQuote(symbol: string, quotes: seq<Quote>, i: nat)
    requires i < |quotes|
    ensures var key, before := QuoteKey(symbol, quotes[i]), KeysInOrder(symbol, quotes[..i]);
            && Desired(symbol, quotes[..i + 1]) == Desired(symbol, quotes[..i])[key := quotes[i]]
            && KeysInOrder(symbol, quotes[..i + 1]) == if key in before then before else before + [key]
  {
    hide QuoteKey;
    assert quotes[..i + 1][..i] == quotes[..i];
  }

  lemma SeenLater(symbol: string, quotes: seq<Quote>, order: seq<string>, key: string, i: nat)
    requires FirstSeenOrder(symbol, quotes, order) && FirstIndex(symbol, quotes, key) == i
    requires forall k <- order :: FirstIndex(symbol, quotes, k) < i
    ensures FirstSeenOrder(symbol, quotes, order + [key])
  {
    hide FirstIndex;
    assert forall k :: 0 <= k < |order| ==> order[k] in order;
  }

  class MarketMakerRuntime {
    const paper: PaperEngine
    var settings: Settings
    var cancelledOrders: nat

    constructor (paper: PaperEngine, settings: Settings)
      ensures this.paper == paper && this.settings == settings && cancelledOrders == 0
    {
      this.paper, this.settings, cancelledOrders := paper, settings, 0;
    }

    method CancelLifecycleOrder(id: string)
      requires paper.Valid()
      modifies this`cancelledOrders, paper
      ensures paper.Valid()
      ensures paper.View() == CancelOrder(old(paper.View()), id)
      ensures cancelledOrders == old(cancelledOrders) + if id in old(paper.open) then 1 else 0
    {
      var cancelled := paper.CancelOrder(id);
      if cancelled.Some? {
        cancelledOrders := cancelledOrders + 1;
      }
    }

    /** Cancels one more order of a sync that started from p. */
    method CancelNext(ghost p: Paper, ghost gone: seq<string>, id: string)
      requires p.WellFormed() && paper.View() == CancelMany(p, gone)
      requires id in p.open && id !in gone
      modifies this`cancelledOrders, paper
      ensures paper.View() == CancelMany(p, gone + [id])
      ensures cancelledOrders == old(cancelledOrders) + 1
    {
      CancelManyFacts(p, gone);
      assert (gone + [id])[..|gone|] == gone;
      CancelLifecycleOrder(id);
    }

    /** First pass: orders of the symbol without a rung key go, the others are grouped by key. */
    method GroupOpenOrders(symbol: string)
      returns (groups: map<string, seq<string>>, order: seq<string>, ghost gone: seq<string>)
      requires paper.Valid()
      modifies this`cancelledOrders, paper
      ensures paper.View() == CancelMany(old(paper.View()), gone)
      ensures cancelledOrders == old(cancelledOrders) + |gone|
      ensures Orphans(old(paper.View()), symbol, |old(paper.keys)|, gone)
      ensures Grouped(old(paper.View()), symbol, |old(paper.keys)|, groups, order)
      ensures order == RungsInOrder(old(paper.View()), symbol, |old(paper.keys)|)
    {
      var p := paper.View();
      groups, order, gone := map[], [], [];
      for i := 0 to |p.keys|
        invariant paper.View() == CancelMany(p, gone)
        invariant cancelledOrders == old(cancelledOrders) + |gone|
        invariant Orphans(p, symbol, i, gone) && Grouped(p, symbol, i, groups, order)
        invariant order == RungsInOrder(p, symbol, i)
      {
        assert forall key :: key in order <==> key in groups;
        OrphansNext(p, symbol, i, gone);
        GroupedNext(p, symbol, i, groups, order);
        var id := p.keys[i];
        assert id in p.open;
        hide OrderKey, CancelMany, Orphans, Grouped, NoDuplicates;
        var intent := OpenOrder(p, id).intent;
        if intent.symbol == symbol {
          var key := OrderKey(intent);
          if key.None? {
            CancelNext(p, gone, id);
            gone := gone + [id];
          } else {
            if key.value !in groups {
              order := order + [key.value];
            }
            groups := groups[key.value := Filed(groups, key.value) + [id]];
          }
        }
      }
    }

    /** Cancels some orders of one rung. */
    method CancelEach(ghost p: Paper, ghost gone: seq<string>, ids: seq<string>)
      requires p.WellFormed() && paper.View() == CancelMany(p, gone) && NoDuplicates(ids)
      requires forall id <- ids :: id in p.open && id !in gone
      modifies this`cancelledOrders, paper
      ensures paper.View() == CancelMany(p, gone + ids)
      ensures cancelledOrders == old(cancelledOrders) + |ids|
    {
      hide CancelMany, Paper.WellFormed;
      assert gone + ids[..0] == gone;
      for i := 0 to |ids|
        invariant paper.View() == CancelMany(p, gone + ids[..i])
        invariant cancelledOrders == old(cancelledOrders) + i
      {
        assert ids[i] in ids;
        CancelNext(p, gone + ids[..i], ids[i]);
        assert gone + ids[..i] + [ids[i]] == gone + ids[..i + 1];
      }
      assert ids[..|ids|] == ids;
    }

    /** Keeps the newest order of a desired rung if it is young and undrifted, and cancels the rest. */
    method SyncRung(s: Sync, key: string, ids: seq<string>, ghost gone: seq<string>)
      returns (kept: Option<string>, ghost added: seq<string>)
      requires s.p.WellFormed() && paper.View() == CancelMany(s.p, gone) && settings == s.settings
      requires key in s.desired && ids == Group(s.p, s.symbol, key, |s.p.keys|) && ids != []
      requires forall id :: OnRung(s.p, s.symbol, id, key) ==> id !in gone
      modifies this`cancelledOrders, paper
      ensures paper.View() == CancelMany(s.p, gone + added)
      ensures cancelledOrders == old(cancelledOrders) + |added|
      ensures NoDuplicates(added)
      ensures forall id :: id in added <==> OnRung(s.p, s.symbol, id, key) && !s.Stays(id)
      ensures forall id :: kept == Some(id) <==> OnRung(s.p, s.symbol, id, key) && s.Stays(id)
      ensures kept.None? <==> s.Refreshed(key)
    {
      hide *;
      var sorted := SortBy(ids, Age(s.p));
      RungSorted(s, key, gone);
      var newest := OpenOrder(s.p, sorted[0]);
      if s.now - newest.createdAt >= settings.maxOrderAge || Drifted(newest.intent, s.desired[key], settings) {
        kept, added := None, sorted;
        CancelEach(s.p, gone, sorted);
      } else {
        kept, added := Some(sorted[0]), sorted[1..];
        CancelEach(s.p, gone, sorted[1..]);
      }
    }

    /** Second pass, one rung: outside the desired ladder everything goes. */
    method SyncKey(s: Sync, key: string, ids: seq<string>, left: map<string, Quote>, toPlace: seq<Quote>,
                   ghost done: seq<string>, ghost gone: seq<string>)
      returns (left': map<string, Quote>, toPlace': seq<Quote>, ghost gone': seq<string>)
      requires s.p.WellFormed() && paper.View() == CancelMany(s.p, gone) && settings == s.settings
      requires ids == Group(s.p, s.symbol, key, |s.p.keys|) && ids != []
      requires s.Cleared(done, gone) && s.Planned(done, left, toPlace) && s.Injective() && key !in done
      modifies this`cancelledOrders, paper
      ensures paper.View() == CancelMany(s.p, gone')
      ensures cancelledOrders - |gone'| == old(cancelledOrders) - |gone|
      ensures s.Cleared(done + [key], gone') && s.Planned(done + [key], left', toPlace')
    {
      left', toPlace' := left, toPlace;
      ghost var added;
      assert forall id :: OnRung(s.p, s.symbol, id, key) ==> id !in gone;
      if key !in s.desired {
        added := ids;
        OutsideRung(s, key);
        hide *;
        PlannedOutside(s, done, key, left, toPlace);
        CancelEach(s.p, gone, ids);
      } else {
        hide CancelMany, OnRung, Group, Paper.WellFormed, Sync.Cleared, Sync.Planned, Sync.Stays, Sync.Refreshed;
        var quote := s.desired[key];
        var kept;
        kept, added := SyncRung(s, key, ids, gone);
        if kept.Some? && kept.value != "" {
          left' := left - {key};
        } else if kept.None? {
          toPlace' := toPlace + [quote];
        } else if quote !in toPlace {
          toPlace' := toPlace + [quote];
          left' := left - {key};
        }
        PlannedNext(s, done, key, left, toPlace, kept, left', toPlace');
      }
      gone' := gone + added;
      hide *;
      ClearedNext(s, done, key, gone, added);
    }

    /** Second pass over all rungs found by the first. */
    method SyncKeys(s: Sync, groups: map<string, seq<string>>, order: seq<string>, ghost orphans: seq<string>)
      returns (left: map<string, Quote>, toPlace: seq<Quote>, ghost gone: seq<string>)
      requires s.p.WellFormed() && paper.View() == CancelMany(s.p, orphans) && settings == s.settings
      requires Grouped(s.p, s.symbol, |s.p.keys|, groups, order) && s.Cleared([], orphans) && s.Injective()
      modifies this`cancelledOrders, paper
      ensures paper.View() == CancelMany(s.p, gone)
      ensures cancelledOrders - |gone| == old(cancelledOrders) - |orphans|
      ensures s.Cleared(order, gone) && s.Planned(order, left, toPlace)
    {
      hide *;
      left, toPlace, gone := s.desired, [], orphans;
      PlannedStart(s);
      assert order[..0] == [];
      for j := 0 to |order|
        invariant paper.View() == CancelMany(s.p, gone)
        invariant cancelledOrders - |gone| == old(cancelledOrders) - |orphans|
        invariant s.Cleared(order[..j], gone) && s.Planned(order[..j], left, toPlace)
      {
        var key := order[j];
        GroupedAt(s.p, s.symbol, groups, order, j);
        left, toPlace, gone := SyncKey(s, key, groups[key], left, toPlace, order[..j], gone);
      }
      assert order[..|order|] == order;
    }

    /** The whole sync. Returns the quotes to submit; `gone` lists the cancelled orders. */
    method SyncPaperLadder(symbol: string, quotes: seq<Quote>, now: real)
      returns (toPlace: seq<Quote>, ghost gone: seq<string>)
      requires paper.Valid()
      modifies this`cancelledOrders, paper
      ensures paper.Valid()
      ensures paper.View() == CancelMany(old(paper.View()), gone)
      ensures cancelledOrders == old(cancelledOrders) + |gone|
      ensures SyncOutcome(old(paper.View()), symbol, Desired(symbol, quotes), now, settings, gone, toPlace)
      ensures AskedInOrder(old(paper.View()), symbol, quotes, now, settings, toPlace)
    {
      var desired, desiredOrder := CollectDesired(symbol, quotes);
      var s := Sync(paper.View(), symbol, desired, now, settings);
      ghost var orphans;
      var groups, order;
      groups, order, orphans := GroupOpenOrders(symbol);
      OrphansCleared(s, orphans);
      DesiredInjective(symbol, quotes);
      hide CancelMany, Group, Paper.WellFormed, Sync.Cleared, Sync.Refreshed, NoDuplicates, Grouped, Orphans,
           SyncOutcome, Desired, Unheld, Waiting, RungsInOrder, KeysInOrder;
      var left, early;
      left, early, gone := SyncKeys(s, groups, order, orphans);
      FinishSync(s, groups, order, desiredOrder, gone, left, early);
      LateWaits(s, groups, order, desiredOrder, left, early);
      toPlace := early + ValuesInOrder(desiredOrder, left);
    }
  }
}
