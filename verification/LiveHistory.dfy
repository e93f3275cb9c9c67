/** What the rows of live orders say, in terms of the answers and reports recorded: the latest decides
    status and fill, the first decides the terms. */
module LiveHistory {
  import opened Common
  import opened Precision
  import opened LiveOrders

  // ----- Status names -----

  function ReportText(r: Reported): string {
    match r
    case New => "new"
    case OpenOrder => "open"
    case Partial => "partially_filled"
    case Done => "filled"
    case CancelledOrder => "cancelled"
    case RejectedOrder => "rejected"
    case ExpiredOrder => "expired"
    case Unknown => "unknown"
  }

  function StatusText(s: OrderStatus): string {
    match s
    case Created => "created"
    case Submitted => "submitted"
    case Open => "open"
    case PartiallyFilled => "partially_filled"
    case Filled => "filled"
    case CancelPending => "cancel_pending"
    case Cancelled => "cancelled"
    case Rejected => "rejected"
    case Expired => "expired"
    case Failed => "failed"
  }

  /** A reported status is stored under its own name; a new order counts as created, and one of unknown
      status as submitted. */
  lemma StatusKeepsName(r: Reported)
    ensures StatusText(StatusOf(r)) ==
            if r.New? then "created" else if r.Unknown? then "submitted" else ReportText(r)
  {
  }

  // ----- The checks, row by row -----

  /** A placement is accepted exactly when it is valid, no created, submitted, open or partly filled row
      of the account has its id, and no submitted, open or partly filled row of the account on the
      other side has a price that it reaches. */
  lemma AcceptedExactly(table: Table, account: string, i: Intent, p: SymbolPrecision)
    ensures Accepted(table, account, i, p) <==>
            && Validates(i, p)
            && !(i.clientId in table && table[i.clientId].account == account
                 && table[i.clientId].status in {Created, Submitted, Open, PartiallyFilled})
            && (i.price.Some? ==>
                  forall id <- table :: table[id].account == account && table[id].price.Some?
                                        && table[id].status in {Submitted, Open, PartiallyFilled} ==>
                                          && (i.side.Buy? && table[id].side.Sell? ==>
                                                  i.price.value < table[id].price.value)
                                          && (i.side.Sell? && table[id].side.Buy? ==>
                                                  i.price.value > table[id].price.value))
  {
    hide Validates;
    if i.price.Some? {
      forall id <- table
        ensures !Conflicts(table[id], account, i.side, i.price.value) <==>
                (table[id].account == account && table[id].price.Some?
                 && table[id].status in {Submitted, Open, PartiallyFilled} ==>
                   && (i.side.Buy? && table[id].side.Sell? ==>
                                                  i.price.value < table[id].price.value)
                   && (i.side.Sell? && table[id].side.Buy? ==>
                                                  i.price.value > table[id].price.value))
      {
      }
    }
  }

  /** So a placement whose answer keeps its id never touches an active row of the account. */
  lemma ActiveRowsKept(table: Table, account: string, i: Intent, p: SymbolPrecision, answer: Answer, paired: bool,
                       id: string)
    requires answer.clientId in {None, Some(i.clientId)} && id in table
    requires table[id].account == account && table[id].status in {Created, Submitted, Open, PartiallyFilled}
    ensures var after := Step(table, account, Place(i, p, answer, paired)); id in after && after[id] == table[id]
  {
    hide Accepted, ApplyPrecision, PersistOrder;
    AcceptedExactly(table, account, i, p);
    if id != i.clientId {
      PersistTouchesOne(table, account, AnsweredId(i, answer), answer, Some(i));
    }
  }

  lemma PersistTouchesOne(table: Table, account: string, at: string, answer: Answer, intent: Option<Intent>)
    ensures var after := PersistOrder(table, account, at, answer, intent);
            && at in after
            && forall id :: id != at ==> (id in after <==> id in table) && (id in table ==> after[id] == table[id])
  {
  }

  // ----- Recordings -----

  /** One answer or report written to the table. */
  datatype Recording = Recording(id: string, answer: Answer, intent: Option<Intent>)

  function RecordAll(table: Table, account: string, recordings: seq<Recording>): Table {
    if recordings == [] then table
    else
      var last := recordings[|recordings| - 1];
      PersistOrder(RecordAll(table, account, recordings[..|recordings| - 1]), account, last.id, last.answer,
                   last.intent)
  }

  /** Everything that a run writes. */
  ghost function Recordings(table: Table, account: string, events: seq<Event>): seq<Recording> {
    if events == [] then []
    else
      var init, e := events[..|events| - 1], events[|events| - 1];
      Recordings(table, account, init) +
      match e
      case Place(i, p, answer, paired) =>
        if Recorded(Run(table, account, init), account, i, p, answer, paired)
        then [Recording(AnsweredId(i, answer), answer, Some(i))] else []
      case Update(id, report) => [Recording(id, report, None)]
  }

  lemma RecordOneMore(table: Table, account: string, recordings: seq<Recording>, last: Recording)
    ensures RecordAll(table, account, recordings + [last])
            == PersistOrder(RecordAll(table, account, recordings), account, last.id, last.answer, last.intent)
  {
    assert (recordings + [last])[..|recordings|] == recordings;
  }

  lemma {:induction false} RunRecords(table: Table, account: string, events: seq<Event>)
    ensures Run(table, account, events) == RecordAll(table, account, Recordings(table, account, events))
  {
    hide PersistOrder, Recorded, RecordAll;
    if events != [] {
      var init, e := events[..|events| - 1], events[|events| - 1];
      RunRecords(table, account, init);
      var before := Recordings(table, account, init);
      match e
      case Place(i, p, answer, paired) =>
        RecordOneMore(table, account, before, Recording(AnsweredId(i, answer), answer, Some(i)));
        assert before + [] == before;
      case Update(id, report) => RecordOneMore(table, account, before, Recording(id, report, None));
    } else {
      NothingRecorded(table, account);
    }
  }

  lemma NothingRecorded(table: Table, account: string)
    ensures RecordAll(table, account, []) == table
  {
  }

  lemma {:induction false} RecordConcat(table: Table, account: string, a: seq<Recording>, b: seq<Recording>)
    ensures RecordAll(table, account, a + b) == RecordAll(RecordAll(table, account, a), account, b)
  {
    hide PersistOrder;
    if b == [] {
      assert a + b == a;
    } else {
      RecordConcat(table, account, a, b[..|b| - 1]);
      assert (a + b)[..|a + b| - 1] == a + b[..|b| - 1];
    }
  }

  // ----- What a row says -----

  ghost predicate LastOf(recordings: seq<Recording>, k: nat) {
    k < |recordings| && forall j :: k < j < |recordings| ==> recordings[j].id != recordings[k].id
  }

  ghost predicate FirstOf(recordings: seq<Recording>, k: nat) {
    k < |recordings| && forall j :: 0 <= j < k ==> recordings[j].id != recordings[k].id
  }

  ghost predicate Mentions(recordings: seq<Recording>, id: string) {
    exists k :: 0 <= k < |recordings| && recordings[k].id == id
  }

  /** Status, filled quantity and average are those of the last recording. */
  predicate SaysLast(row: Row, last: Recording) {
    row.status == StatusOf(last.answer.status) && row.filled == last.answer.filled && row.average == last.answer.average
  }

  predicate SameTerms(a: Row, b: Row) {
    a.account == b.account && a.side == b.side && a.price == b.price && a.quantity == b.quantity
  }

  /** Account, side, price and quantity are those of the first recording, with gaps filled from the
      intent. */
  predicate TermsOf(row: Row, account: string, first: Recording) {
    var a, i := first.answer, first.intent;
    && row.account == account
    && row.side == (if a.side.Some? then a.side.value else if i.Some? then i.value.side else Buy)
    && row.price == (if a.price.Some? then a.price else if i.Some? then i.value.price else None)
    && row.quantity == (if a.quantity.Some? then a.quantity.value else if i.Some? then i.value.quantity else 0.0)
  }

  ghost predicate LastsSaid(recordings: seq<Recording>, r: Table) {
    forall k: nat :: LastOf(recordings, k) ==> recordings[k].id in r && SaysLast(r[recordings[k].id], recordings[k])
  }

  ghost predicate FirstsSaid(table: Table, account: string, recordings: seq<Recording>, r: Table) {
    forall k: nat :: FirstOf(recordings, k) && recordings[k].id !in table ==>
                       recordings[k].id in r && TermsOf(r[recordings[k].id], account, recordings[k])
  }

  ghost predicate TermsKept(table: Table, r: Table) {
    forall id <- table :: id in r && SameTerms(r[id], table[id])
  }

  ghost predicate RestKept(table: Table, recordings: seq<Recording>, r: Table) {
    forall id :: !Mentions(recordings, id) ==> (id in r <==> id in table) && (id in table ==> r[id] == table[id])
  }

  /** The whole table after some recordings. */
  ghost predicate TableSays(table: Table, account: string, recordings: seq<Recording>, r: Table) {
    && LastsSaid(recordings, r) && FirstsSaid(table, account, recordings, r)
    && TermsKept(table, r) && RestKept(table, recordings, r)
  }

  lemma PersistSays(table: Table, account: string, last: Recording)
    ensures var r := PersistOrder(table, account, last.id, last.answer, last.intent);
            && last.id in r && SaysLast(r[last.id], last)
            && (if last.id in table then SameTerms(r[last.id], table[last.id]) else TermsOf(r[last.id], account, last))
  {
  }

  lemma OneMore(recordings: seq<Recording>, last: Recording)
    ensures var all, n := recordings + [last], |recordings|;
            && LastOf(all, n)
            && (forall k: nat :: k < n ==> (LastOf(all, k) <==> LastOf(recordings, k) && recordings[k].id != last.id))
            && (forall k: nat :: k < n ==> (FirstOf(all, k) <==> FirstOf(recordings, k)))
            && (FirstOf(all, n) <==> !Mentions(recordings, last.id))
            && (forall id :: Mentions(all, id) <==> Mentions(recordings, id) || id == last.id)
            && (forall k: nat :: LastOf(all, k) || FirstOf(all, k) ==> k <= n)
  {
    var all, n := recordings + [last], |recordings|;
    assert forall k :: 0 <= k < n ==> all[k] == recordings[k];
    if Mentions(recordings, last.id) {
      var k :| 0 <= k < n && recordings[k].id == last.id;
      assert all[k].id == last.id;
    }
    forall id ensures Mentions(all, id) <==> Mentions(recordings, id) || id == last.id {
      if Mentions(recordings, id) {
        var k :| 0 <= k < n && recordings[k].id == id;
        assert all[k].id == id;
      } else if id == last.id {
        assert all[n].id == id;
      }
    }
  }

  /** Over all recordings: the last under an id decides status, filled quantity and average; the row it
      started from, or else the first, decides the terms; an id never recorded keeps its row. */
  lemma {:induction false} RowHistory(table: Table, account: string, recordings: seq<Recording>)
    ensures TableSays(table, account, recordings, RecordAll(table, account, recordings))
  {
    hide PersistOrder, LastsSaid, FirstsSaid, TermsKept, RestKept;
    if recordings == [] {
      NothingSaid(table, account);
    } else {
      var init, last := recordings[..|recordings| - 1], recordings[|recordings| - 1];
      var before := RecordAll(table, account, init);
      RowHistory(table, account, init);
      assert recordings == init + [last];
      NextLasts(before, account, init, last);
      NextFirsts(table, before, account, init, last);
      NextKept(table, before, account, init, last);
    }
  }

  lemma NothingSaid(table: Table, account: string)
    ensures TableSays(table, account, [], table)
  {
  }

  lemma NextLasts(before: Table, account: string, init: seq<Recording>, last: Recording)
    requires LastsSaid(init, before)
    ensures LastsSaid(init + [last], PersistOrder(before, account, last.id, last.answer, last.intent))
  {
    hide PersistOrder, SaysLast, LastOf, FirstOf, Mentions;
    OneMore(init, last);
    PersistSays(before, account, last);
    PersistTouchesOne(before, account, last.id, last.answer, last.intent);
  }

  lemma NextFirsts(table: Table, before: Table, account: string, init: seq<Recording>, last: Recording)
    requires FirstsSaid(table, account, init, before) && RestKept(table, init, before)
    ensures FirstsSaid(table, account, init + [last], PersistOrder(before, account, last.id, last.answer, last.intent))
  {
    hide PersistOrder, TermsOf, LastOf, FirstOf, Mentions, SameTerms;
    OneMore(init, last);
    PersistSays(before, account, last);
    PersistTouchesOne(before, account, last.id, last.answer, last.intent);
    TermsTravel();
  }

  lemma NextKept(table: Table, before: Table, account: string, init: seq<Recording>, last: Recording)
    requires TermsKept(table, before) && RestKept(table, init, before)
    ensures TermsKept(table, PersistOrder(before, account, last.id, last.answer, last.intent))
    ensures RestKept(table, init + [last], PersistOrder(before, account, last.id, last.answer, last.intent))
  {
    hide PersistOrder, LastOf, FirstOf, Mentions, SameTerms;
    OneMore(init, last);
    PersistSays(before, account, last);
    PersistTouchesOne(before, account, last.id, last.answer, last.intent);
    TermsTravel();
  }

  lemma TermsTravel()
    ensures forall a, b, c :: SameTerms(a, b) && SameTerms(b, c) ==> SameTerms(a, c)
    ensures forall a, b, account, first :: SameTerms(a, b) && TermsOf(b, account, first) ==> TermsOf(a, account, first)
  {
  }

  /** The same over runs of placements and updates. */
  lemma RunHistory(table: Table, account: string, events: seq<Event>)
    ensures TableSays(table, account, Recordings(table, account, events), Run(table, account, events))
  {
    hide TableSays;
    RunRecords(table, account, events);
    RowHistory(table, account, Recordings(table, account, events));
  }
}
