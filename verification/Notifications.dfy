/** The delivery log: publishing from the outbox, and paging backwards through a log that keeps growing. */
module Notifications {
  import opened JsonValues

  datatype Delivery = Delivery(sequence: nat, event: nat)

  datatype DeliveryState = Unread | Read | Archived

  datatype OutboxRow = OutboxRow(event: nat, published: bool, attempts: nat)

  /** Events by number with their type; deliveries in the order of their sequence numbers; their states apart. */
  datatype Tables = Tables(
    eventTypes: seq<string>,
    outbox: seq<OutboxRow>,
    deliveries: seq<Delivery>,
    states: map<nat, DeliveryState>,
    nextSequence: nat)

  // Cursors

  predicate IsDigit(c: char) {
    '0' <= c <= '9'
  }

  function DigitValue(c: char): nat
    requires IsDigit(c)
  {
    c as int - '0' as int
  }

  function ParseNat(text: string): Option<nat> {
    if text == "" then None
    else
      var front, last := text[..|text| - 1], text[|text| - 1];
      if !IsDigit(last) then None
      else if front == "" then Some(DigitValue(last))
      else
        match ParseNat(front)
        case None => None
        case Some(n) => Some(10 * n + DigitValue(last))
  }

  function EncodeCursor(sequence: nat): string {
    NatText(sequence)
  }

  /** `decode_cursor`, on plain decimal digits. */
  function DecodeCursor(cursor: string): Option<nat> {
    ParseNat(cursor)
  }

  lemma DigitIsDigit(n: nat)
    requires n < 10
    ensures IsDigit(Digit(n)) && DigitValue(Digit(n)) == n
  {
  }

  /** Decoding gives back the sequence number that was encoded. */
  lemma {:induction false} CursorRoundTrip(sequence: nat)
    ensures EncodeCursor(sequence) != "" && DecodeCursor(EncodeCursor(sequence)) == Some(sequence)
  {
    DigitIsDigit(sequence % 10);
    if sequence >= 10 {
      CursorRoundTrip(sequence / 10);
      var text := NatText(sequence);
      assert text[..|text| - 1] == NatText(sequence / 10);
    }
  }

  // Listing

  const MAX_LIMIT := 100

  function Clamp(limit: int): nat {
    if limit < 1 then 1 else if limit > MAX_LIMIT then MAX_LIMIT else limit
  }

  /** The deliveries below a sequence number; all of them when there is none. */
  function Below(deliveries: seq<Delivery>, cursor: Option<nat>): seq<Delivery> {
    if deliveries == [] then []
    else
      var last := deliveries[|deliveries| - 1];
      Below(deliveries[..|deliveries| - 1], cursor)
      + if cursor.Some? && last.sequence >= cursor.value then [] else [last]
  }

  function Reverse(xs: seq<Delivery>): seq<Delivery> {
    seq(|xs|, i requires 0 <= i < |xs| => xs[|xs| - 1 - i])
  }

  function Take(xs: seq<Delivery>, n: nat): seq<Delivery> {
    if |xs| <= n then xs else xs[..n]
  }

  datatype Page = Page(deliveries: seq<Delivery>, next: Option<string>)

  /** The newest of these deliveries, one more being looked at to see whether there is more. */
  function NewestOf(deliveries: seq<Delivery>, size: nat): Page {
    var rows := Take(Reverse(deliveries), size + 1);
    var page := Take(rows, size);
    Page(page, if |rows| > size && page != [] then Some(EncodeCursor(page[|page| - 1].sequence)) else None)
  }

  /** `list_notifications` without a state filter: the newest deliveries below the cursor. */
  function ListNotifications(deliveries: seq<Delivery>, cursor: Option<nat>, limit: int): Page {
    NewestOf(Below(deliveries, cursor), Clamp(limit))
  }

  ghost predicate Ascending(deliveries: seq<Delivery>) {
    forall i, j :: 0 <= i < j < |deliveries| ==> deliveries[i].sequence < deliveries[j].sequence
  }

  /** A log that only grew, by deliveries with higher numbers. */
  ghost predicate GrewTo(a: seq<Delivery>, b: seq<Delivery>) {
    a <= b && Ascending(b)
  }

  lemma {:induction false} BelowIsPrefix(deliveries: seq<Delivery>, n: nat)
    requires Ascending(deliveries) && n < |deliveries|
    ensures Below(deliveries, Some(deliveries[n].sequence)) == deliveries[..n]
  {
    var front, last := deliveries[..|deliveries| - 1], deliveries[|deliveries| - 1];
    if n < |front| {
      assert Ascending(front) && front[n] == deliveries[n];
      BelowIsPrefix(front, n);
      assert front[..n] == deliveries[..n];
      assert last.sequence >= deliveries[n].sequence;
    } else {
      forall i | 0 <= i < |front| ensures front[i].sequence < last.sequence {
        assert deliveries[i].sequence < deliveries[|front|].sequence;
      }
      BelowAll(front, last.sequence);
      assert deliveries[..n] == front;
    }
  }

  lemma {:induction false} BelowAll(deliveries: seq<Delivery>, cursor: nat)
    requires forall i :: 0 <= i < |deliveries| ==> deliveries[i].sequence < cursor
    ensures Below(deliveries, Some(cursor)) == deliveries
  {
    if deliveries != [] {
      BelowAll(deliveries[..|deliveries| - 1], cursor);
    }
  }

  lemma {:induction false} BelowNone(deliveries: seq<Delivery>)
    ensures Below(deliveries, None) == deliveries
  {
    if deliveries != [] {
      BelowNone(deliveries[..|deliveries| - 1]);
    }
  }

  /** The deliveries from `m` to `n`, newest first, with a cursor if there are older ones. */
  function Stretch(first: seq<Delivery>, m: nat, n: nat): Page
    requires m <= n <= |first| && (m < |first| || m == 0)
  {
    Page(Reverse(first[m..n]), if m > 0 then Some(EncodeCursor(first[m].sequence)) else None)
  }

  /** How many of `n` deliveries one page leaves unread. */
  function Rest(n: nat, limit: int): nat {
    if n <= Clamp(limit) then 0 else n - Clamp(limit)
  }

  lemma NewestOfPrefix(first: seq<Delivery>, n: nat, size: nat)
    requires n <= |first| && size > 0
    ensures NewestOf(first[..n], size) == Stretch(first, if n <= size then 0 else n - size, n)
  {
  }

  /** One page of a grown log is the next stretch, backwards, of the log as it first was. */
  lemma PageOfGrownLog(first: seq<Delivery>, now: seq<Delivery>, n: nat, limit: int)
    requires GrewTo(first, now) && n < |first|
    ensures ListNotifications(now, Some(first[n].sequence), limit) == Stretch(first, Rest(n, limit), n)
  {
    assert Below(now, Some(first[n].sequence)) == first[..n] by {
      assert now[n] == first[n];
      BelowIsPrefix(now, n);
      assert now[..n] == first[..n];
    }
    NewestOfPrefix(first, n, Clamp(limit));
  }

  // Walking back through the log

  /** The pages a client gets that follows `next` from page to page; the i-th request finds `logs[i]`. */
  function Follow(logs: seq<seq<Delivery>>, limits: seq<int>, cursor: Option<nat>): seq<Page>
    requires |logs| == |limits|
    decreases |logs|
  {
    if logs == [] then []
    else
      var page := ListNotifications(logs[0], cursor, limits[0]);
      if page.next.None? || DecodeCursor(page.next.value).None? then [page]
      else [page] + Follow(logs[1..], limits[1..], DecodeCursor(page.next.value))
  }

  /** What is listed on these pages. */
  function Listed(pages: seq<Page>): seq<Delivery> {
    if pages == [] then [] else pages[0].deliveries + Listed(pages[1..])
  }

  /** The walk came to a page without a cursor. */
  predicate Ended(pages: seq<Page>) {
    pages != [] && pages[|pages| - 1].next.None?
  }

  lemma ReverseSplit(xs: seq<Delivery>, m: nat, n: nat)
    requires m <= n <= |xs|
    ensures Reverse(xs[m..n]) + Reverse(xs[..m]) == Reverse(xs[..n])
  {
  }

  lemma ListedFirst(page: Page, rest: seq<Page>)
    ensures Listed([page] + rest) == page.deliveries + Listed(rest)
    ensures Ended(rest) ==> Ended([page] + rest)
  {
    assert ([page] + rest)[1..] == rest;
  }

  /** One request of the walk that finds the stretch from `m` to `n`, and the walk after it. */
  lemma FollowOnce(
    first: seq<Delivery>, logs: seq<seq<Delivery>>, limits: seq<int>, cursor: Option<nat>, m: nat, n: nat)
    requires |logs| == |limits| && logs != [] && m <= n <= |first| && (m < |first| || m == 0)
    requires ListNotifications(logs[0], cursor, limits[0]) == Stretch(first, m, n)
    ensures Follow(logs, limits, cursor)
         == [Stretch(first, m, n)] + if m == 0 then [] else Follow(logs[1..], limits[1..], Some(first[m].sequence))
  {
    if m > 0 {
      CursorRoundTrip(first[m].sequence);
    }
  }

  /** These pages list the first `n` deliveries, newest first, and end the walk. */
  predicate ReadsBack(pages: seq<Page>, first: seq<Delivery>, n: nat)
    requires n <= |first|
  {
    Listed(pages) == Reverse(first[..n]) && Ended(pages) && |pages| <= if n == 0 then 1 else n
  }

  lemma OneStretch(first: seq<Delivery>, n: nat)
    requires n <= |first|
    ensures ReadsBack([Stretch(first, 0, n)], first, n)
  {
    assert [Stretch(first, 0, n)] == [Stretch(first, 0, n)] + [];
    ListedFirst(Stretch(first, 0, n), []);
    assert first[0..n] == first[..n];
  }

  lemma StretchThen(first: seq<Delivery>, m: nat, n: nat, rest: seq<Page>)
    requires 0 < m < n <= |first| && ReadsBack(rest, first, m)
    ensures ReadsBack([Stretch(first, m, n)] + rest, first, n)
  {
    ReverseSplit(first, m, n);
    ListedFirst(Stretch(first, m, n), rest);
  }

  /** A walk whose first page ends before the n-th delivery reads the deliveries before it and comes to an end. */
  lemma {:induction false} FollowReadsBack(
    first: seq<Delivery>, logs: seq<seq<Delivery>>, limits: seq<int>, cursor: Option<nat>, n: nat)
    requires |logs| == |limits| && n <= |first| && n <= |logs| && 0 < |logs|
    requires forall i :: 0 <= i < |logs| ==> GrewTo(first, logs[i])
    requires ListNotifications(logs[0], cursor, limits[0]) == Stretch(first, Rest(n, limits[0]), n)
    ensures ReadsBack(Follow(logs, limits, cursor), first, n)
    decreases |logs|
  {
    var m := Rest(n, limits[0]);
    FollowOnce(first, logs, limits, cursor, m, n);
    if m > 0 {
      PageOfGrownLog(first, logs[1], m, limits[1]);
      FollowReadsBack(first, logs[1..], limits[1..], Some(first[m].sequence), m);
      StretchThen(first, m, n, Follow(logs[1..], limits[1..], Some(first[m].sequence)));
    } else {
      OneStretch(first, n);
    }
  }

  ghost predicate Descending(deliveries: seq<Delivery>) {
    forall i, j :: 0 <= i < j < |deliveries| ==> deliveries[i].sequence > deliveries[j].sequence
  }

  lemma FirstPage(first: seq<Delivery>, limit: int)
    ensures ListNotifications(first, None, limit) == Stretch(first, Rest(|first|, limit), |first|)
  {
    BelowNone(first);
    assert first[..|first|] == first;
    NewestOfPrefix(first, |first|, Clamp(limit));
  }

  /**
    Following the cursors reads every delivery there was at the first page exactly once, in strictly
    descending order, and comes to a page without a cursor after at most as many pages as there were
    deliveries (one if there was none), while the log grows and deliveries are marked read or archived.
   */
  lemma WalkReadsTheLog(logs: seq<seq<Delivery>>, limits: seq<int>)
    requires |logs| == |limits| && logs != [] && |logs[0]| <= |logs|
    requires forall i :: 0 <= i < |logs| ==> GrewTo(logs[0], logs[i])
    ensures var pages := Follow(logs, limits, None);
            && Listed(pages) == Reverse(logs[0])
            && Ended(pages)
            && |pages| <= if |logs[0]| == 0 then 1 else |logs[0]|
    ensures Descending(Reverse(logs[0]))
  {
    var first := logs[0];
    FirstPage(first, limits[0]);
    FollowReadsBack(first, logs, limits, None, |first|);
    assert first[..|first|] == first;
    assert GrewTo(first, logs[0]);
  }

  lemma FollowNext(logs: seq<seq<Delivery>>, limits: seq<int>, cursor: Option<nat>, page: Page, next: nat)
    requires |logs| == |limits| && logs != []
    requires page == ListNotifications(logs[0], cursor, limits[0])
    requires page.next.Some? && DecodeCursor(page.next.value) == Some(next)
    ensures Follow(logs, limits, cursor) == [page] + Follow(logs[1..], limits[1..], Some(next))
  {
  }

  lemma FollowLast(logs: seq<seq<Delivery>>, limits: seq<int>, cursor: Option<nat>, page: Page)
    requires |logs| == |limits| && logs != []
    requires page == ListNotifications(logs[0], cursor, limits[0])
    requires page.next.None? || DecodeCursor(page.next.value).None?
    ensures Follow(logs, limits, cursor) == [page]
  {
  }

  lemma RestEnded(page: Page, rest: seq<Page>)
    requires Ended([page] + rest) && page.next.Some?
    ensures Ended(rest)
  {
    assert rest == [] ==> [page] + rest == [page];
    assert rest != [] ==> rest[|rest| - 1] == ([page] + rest)[|rest|];
  }

  /** More requests change nothing: a walk that has ended asks for no further page. */
  lemma {:induction false} EndedWalkStays(
    logs: seq<seq<Delivery>>, limits: seq<int>, more: seq<seq<Delivery>>, moreLimits: seq<int>, cursor: Option<nat>)
    requires |logs| == |limits| && |more| == |moreLimits| && Ended(Follow(logs, limits, cursor))
    ensures Follow(logs + more, limits + moreLimits, cursor) == Follow(logs, limits, cursor)
    decreases |logs|
  {
    var page := ListNotifications(logs[0], cursor, limits[0]);
    var allLogs, allLimits := logs + more, limits + moreLimits;
    assert allLogs[1..] == logs[1..] + more && allLimits[1..] == limits[1..] + moreLimits;
    if page.next.Some? && DecodeCursor(page.next.value).Some? {
      var next := DecodeCursor(page.next.value).value;
      FollowNext(logs, limits, cursor, page, next);
      FollowNext(allLogs, allLimits, cursor, page, next);
      RestEnded(page, Follow(logs[1..], limits[1..], Some(next)));
      EndedWalkStays(logs[1..], limits[1..], more, moreLimits, Some(next));
    } else {
      FollowLast(logs, limits, cursor, page);
      FollowLast(allLogs, allLimits, cursor, page);
    }
  }

  // Publishing

  predicate Delivered(deliveries: seq<Delivery>, event: nat) {
    exists i :: 0 <= i < |deliveries| && deliveries[i].event == event
  }

  predicate Muted(t: Tables, event: nat, muted: set<string>) {
    event < |t.eventTypes| && t.eventTypes[event] in muted
  }

  /** Publishing one claimed row: a sequence number is drawn even if the delivery is already there. */
  function PublishRow(t: Tables, row: nat, muted: set<string>): Tables
    requires row < |t.outbox|
  {
    var event := t.outbox[row].event;
    var done :=
      t.(outbox := t.outbox[row := t.outbox[row].(published := true, attempts := t.outbox[row].attempts + 1)]);
    if Muted(t, event, muted) then done
    else
      var drawn := done.(nextSequence := t.nextSequence + 1);
      if Delivered(t.deliveries, event) then drawn
      else drawn.(deliveries := t.deliveries + [Delivery(t.nextSequence, event)],
        states := t.states[t.nextSequence := Unread])
  }

  function PublishRows(t: Tables, rows: seq<nat>, muted: set<string>): Tables
    requires forall i :: 0 <= i < |rows| ==> rows[i] < |t.outbox|
    ensures |PublishRows(t, rows, muted).outbox| == |t.outbox|
  {
    if rows == [] then t else PublishRow(PublishRows(t, rows[..|rows| - 1], muted), rows[|rows| - 1], muted)
  }

  /** At most one delivery per event, in ascending order of sequence numbers not yet drawn again. */
  ghost predicate LogSound(t: Tables) {
    && Ascending(t.deliveries)
    && (forall i :: 0 <= i < |t.deliveries| ==> t.deliveries[i].sequence < t.nextSequence)
    && (forall i, j :: 0 <= i < j < |t.deliveries| ==> t.deliveries[i].event != t.deliveries[j].event)
  }

  lemma PublishRowKeeps(t: Tables, row: nat, muted: set<string>)
    requires LogSound(t) && row < |t.outbox|
    ensures var after := PublishRow(t, row, muted);
            && LogSound(after)
            && GrewTo(t.deliveries, after.deliveries)
            && after.eventTypes == t.eventTypes
            && (forall k ::
               0 <= k < |t.outbox| ==>
                 after.outbox[k].event == t.outbox[k].event && (t.outbox[k].published ==> after.outbox[k].published))
            && after.outbox[row].published
            && (!Muted(t, t.outbox[row].event, muted) ==> Delivered(after.deliveries, t.outbox[row].event))
            && (forall e :: Delivered(after.deliveries, e) ==>
                  Delivered(t.deliveries, e) || (e == t.outbox[row].event && !Muted(t, e, muted)))
  {
    var after := PublishRow(t, row, muted);
    if after.deliveries != t.deliveries {
      assert after.deliveries[|t.deliveries|].event == t.outbox[row].event;
    }
  }

  lemma DeliveredStays(a: seq<Delivery>, b: seq<Delivery>, event: nat)
    requires a <= b && Delivered(a, event)
    ensures Delivered(b, event)
  {
  }

  /**
    A publishing call marks every row it claimed as published; each claimed event has exactly one delivery
    afterwards if it was not muted, and gained none if it was; the log only grew.
   */
  lemma {:induction false} PublishingDeliversOnce(t: Tables, rows: seq<nat>, muted: set<string>)
    requires LogSound(t) && forall i :: 0 <= i < |rows| ==> rows[i] < |t.outbox|
    ensures var after := PublishRows(t, rows, muted);
            && LogSound(after)
            && GrewTo(t.deliveries, after.deliveries)
            && after.eventTypes == t.eventTypes
            && (forall k ::
               0 <= k < |t.outbox| ==>
                 after.outbox[k].event == t.outbox[k].event && (t.outbox[k].published ==> after.outbox[k].published))
            && (forall i :: 0 <= i < |rows| ==>
                  after.outbox[rows[i]].published
                  && (!Muted(t, t.outbox[rows[i]].event, muted) ==>
                     Delivered(after.deliveries, t.outbox[rows[i]].event)))
            && (forall e :: Delivered(after.deliveries, e) && Muted(t, e, muted) ==> Delivered(t.deliveries, e))
  {
    if rows != [] {
      var front, last := rows[..|rows| - 1], rows[|rows| - 1];
      PublishingDeliversOnce(t, front, muted);
      var middle := PublishRows(t, front, muted);
      PublishRowKeeps(middle, last, muted);
      var after := PublishRow(middle, last, muted);
      forall i | 0 <= i < |front| && !Muted(t, t.outbox[front[i]].event, muted)
        ensures Delivered(after.deliveries, t.outbox[front[i]].event)
      {
        DeliveredStays(middle.deliveries, after.deliveries, t.outbox[front[i]].event);
      }
      assert forall i :: 0 <= i < |front| ==> rows[i] == front[i];
    }
  }

  // What publishing leaves behind

  /** The event is of a type that nobody has muted. */
  predicate Wanted(t: Tables, event: nat, muted: set<string>) {
    forall kind :: kind in muted ==> !(event < |t.eventTypes| && t.eventTypes[event] == kind)
  }

  /** How many of the claimed rows are about wanted events. */
  function WantedRows(t: Tables, rows: seq<nat>, muted: set<string>): nat
    requires forall i :: 0 <= i < |rows| ==> rows[i] < |t.outbox|
  {
    if rows == [] then 0
    else
      WantedRows(t, rows[..|rows| - 1], muted)
      + if Wanted(t, t.outbox[rows[|rows| - 1]].event, muted) then 1 else 0
  }

  /** Every claimed row is published and counts one attempt more for each time it was claimed. */
  ghost predicate RowsPublished(t: Tables, after: Tables, rows: seq<nat>) {
    && |after.outbox| == |t.outbox|
    && forall k :: 0 <= k < |t.outbox| ==>
         after.outbox[k] == OutboxRow(
           t.outbox[k].event, t.outbox[k].published || k in rows, t.outbox[k].attempts + multiset(rows)[k])
  }

  /** Each delivery added is of a claimed and wanted event that had none, and under a number not used before. */
  ghost predicate AddedAreClaimed(t: Tables, after: Tables, rows: seq<nat>, muted: set<string>) {
    forall d :: d in after.deliveries && d !in t.deliveries ==>
      && t.nextSequence <= d.sequence < after.nextSequence
      && Wanted(t, d.event, muted) && !Delivered(t.deliveries, d.event)
      && exists row :: row in rows && row < |t.outbox| && t.outbox[row].event == d.event
  }

  /** Deliveries added are unread, and nothing else has another state than before. */
  ghost predicate AddedAreUnread(t: Tables, after: Tables) {
    && (forall d :: d in after.deliveries && d !in t.deliveries ==>
          d.sequence in after.states && after.states[d.sequence] == Unread)
    && (forall q :: q in t.states && q < t.nextSequence ==> q in after.states && after.states[q] == t.states[q])
    && (forall q :: q in after.states && q !in t.states ==>
          exists d :: d in after.deliveries && d !in t.deliveries && d.sequence == q)
  }

  ghost predicate Leaves(t: Tables, after: Tables, rows: seq<nat>, muted: set<string>)
    requires forall i :: 0 <= i < |rows| ==> rows[i] < |t.outbox|
  {
    && after.eventTypes == t.eventTypes
    && after.nextSequence == t.nextSequence + WantedRows(t, rows, muted)
    && RowsPublished(t, after, rows)
    && AddedAreClaimed(t, after, rows, muted)
    && AddedAreUnread(t, after)
  }

  lemma WantedIff(t: Tables, event: nat, muted: set<string>)
    ensures Wanted(t, event, muted) <==> !Muted(t, event, muted)
  {
  }

  lemma NothingPublished(t: Tables, muted: set<string>)
    ensures Leaves(t, t, [], muted)
  {
  }

  lemma WantedElsewhere(t: Tables, other: Tables, muted: set<string>)
    requires other.eventTypes == t.eventTypes
    ensures forall e :: Wanted(t, e, muted) <==> Wanted(other, e, muted)
  {
  }

  lemma RowsPublishedOneMore(t: Tables, middle: Tables, front: seq<nat>, last: nat, muted: set<string>)
    requires RowsPublished(t, middle, front) && last < |t.outbox|
    ensures RowsPublished(t, PublishRow(middle, last, muted), front + [last])
  {
    assert forall k :: k in front + [last] <==> k in front || k == last;
    assert forall k :: multiset(front + [last])[k] == multiset(front)[k] + if k == last then 1 else 0;
  }

  /** What publishing one row may add. */
  ghost predicate AddsAtMost(middle: Tables, after: Tables, added: Delivery) {
    || (after.deliveries == middle.deliveries && after.states == middle.states)
    || (after.deliveries == middle.deliveries + [added] && after.states == middle.states[added.sequence := Unread])
  }

  lemma PublishRowAdds(middle: Tables, last: nat, muted: set<string>)
    requires last < |middle.outbox|
    ensures var event, after := middle.outbox[last].event, PublishRow(middle, last, muted);
            && AddsAtMost(middle, after, Delivery(middle.nextSequence, event))
            && middle.nextSequence <= after.nextSequence
            && (after.deliveries != middle.deliveries ==>
                  && Wanted(middle, event, muted) && !Delivered(middle.deliveries, event)
                  && after.nextSequence == middle.nextSequence + 1)
  {
    WantedIff(middle, middle.outbox[last].event, muted);
  }

  lemma ClaimedOneMore(
    t: Tables, middle: Tables, after: Tables, front: seq<nat>, last: nat, muted: set<string>, added: Delivery)
    requires AddedAreClaimed(t, middle, front, muted) && t.deliveries <= middle.deliveries && last < |t.outbox|
    requires after.deliveries == middle.deliveries || after.deliveries == middle.deliveries + [added]
    requires t.nextSequence <= middle.nextSequence <= after.nextSequence && added.event == t.outbox[last].event
    requires after.deliveries != middle.deliveries ==>
               && Wanted(t, added.event, muted) && !Delivered(middle.deliveries, added.event)
               && added.sequence == middle.nextSequence && after.nextSequence == middle.nextSequence + 1
    ensures AddedAreClaimed(t, after, front + [last], muted)
  {
    assert forall row :: row in front + [last] <==> row in front || row == last;
    assert forall d :: d in after.deliveries ==> d in middle.deliveries || d == added;
    if Delivered(t.deliveries, added.event) {
      DeliveredStays(t.deliveries, middle.deliveries, added.event);
    }
  }

  lemma UnreadOneMore(t: Tables, middle: Tables, after: Tables, added: Delivery)
    requires AddedAreUnread(t, middle) && t.deliveries <= middle.deliveries && AddsAtMost(middle, after, added)
    requires forall d :: d in middle.deliveries ==> d.sequence < added.sequence
    requires t.nextSequence <= added.sequence
    ensures AddedAreUnread(t, after)
  {
    assert forall d :: d in middle.deliveries ==> d in after.deliveries;
    assert forall d :: d in after.deliveries ==> d in middle.deliveries || d == added;
    if after.deliveries != middle.deliveries {
      assert added in after.deliveries;
      assert added !in t.deliveries;
    }
  }

  lemma AddedOneMore(t: Tables, middle: Tables, front: seq<nat>, last: nat, muted: set<string>)
    requires LogSound(t) && LogSound(middle) && t.deliveries <= middle.deliveries && last < |t.outbox|
    requires middle.eventTypes == t.eventTypes && t.nextSequence <= middle.nextSequence
    requires RowsPublished(t, middle, front) && AddedAreClaimed(t, middle, front, muted) && AddedAreUnread(t, middle)
    ensures AddedAreClaimed(t, PublishRow(middle, last, muted), front + [last], muted)
    ensures AddedAreUnread(t, PublishRow(middle, last, muted))
  {
    var after, added := PublishRow(middle, last, muted), Delivery(middle.nextSequence, t.outbox[last].event);
    PublishRowAdds(middle, last, muted);
    WantedElsewhere(t, middle, muted);
    ClaimedOneMore(t, middle, after, front, last, muted, added);
    UnreadOneMore(t, middle, after, added);
  }

  /** What publishing leaves of the outbox, the numbers, the deliveries and their states. */
  lemma {:induction false} PublishingLeaves(t: Tables, rows: seq<nat>, muted: set<string>)
    requires LogSound(t) && forall i :: 0 <= i < |rows| ==> rows[i] < |t.outbox|
    ensures Leaves(t, PublishRows(t, rows, muted), rows, muted)
  {
    if rows == [] {
      NothingPublished(t, muted);
    } else {
      var front, last := rows[..|rows| - 1], rows[|rows| - 1];
      PublishingLeaves(t, front, muted);
      PublishingDeliversOnce(t, front, muted);
      var middle := PublishRows(t, front, muted);
      assert front + [last] == rows;
      RowsPublishedOneMore(t, middle, front, last, muted);
      AddedOneMore(t, middle, front, last, muted);
      WantedIff(middle, t.outbox[last].event, muted);
      WantedElsewhere(t, middle, muted);
    }
  }

  // The service

  class NotificationService {
    var eventTypes: seq<string>
    var outbox: seq<OutboxRow>
    var deliveries: seq<Delivery>
    var states: map<nat, DeliveryState>
    var nextSequence: nat

    function State(): Tables
      reads this
    {
      Tables(eventTypes, outbox, deliveries, states, nextSequence)
    }

    /** The fan-out loop of `publish_pending`, on the rows it claimed. */
    method PublishClaimed(rows: seq<nat>, muted: set<string>) returns (newSequences: seq<nat>)
      requires forall i :: 0 <= i < |rows| ==> rows[i] < |outbox|
      modifies this
      ensures State() == PublishRows(old(State()), rows, muted)
      ensures |deliveries| == old(|deliveries|) + |newSequences| && old(deliveries) <= deliveries
      ensures forall i :: 0 <= i < |newSequences| ==> deliveries[old(|deliveries|) + i].sequence == newSequences[i]
    {
      newSequences := [];
      for i := 0 to |rows|
        invariant State() == PublishRows(old(State()), rows[..i], muted)
        invariant |deliveries| == old(|deliveries|) + |newSequences| && old(deliveries) <= deliveries
        invariant forall k :: 0 <= k < |newSequences| ==> deliveries[old(|deliveries|) + k].sequence == newSequences[k]
      {
        assert rows[..i + 1][..i] == rows[..i];
        var row := outbox[rows[i]];
        if !Muted(State(), row.event, muted) {
          var sequence := nextSequence;
          nextSequence := nextSequence + 1;
          if !Delivered(deliveries, row.event) {
            deliveries := deliveries + [Delivery(sequence, row.event)];
            states := states[sequence := Unread];
            newSequences := newSequences + [sequence];
          }
        }
        outbox := outbox[rows[i] := row.(published := true, attempts := row.attempts + 1)];
      }
      assert rows[..|rows|] == rows;
    }

    /** Marking as read or archiving touches one state and no delivery. */
    method MarkRead(sequence: nat)
      modifies this
      ensures State() == old(State()).(states := states)
      ensures states == if sequence in old(states)
              && old(states)[sequence] == Unread then old(states)[sequence := Read] else old(states)
    {
      if sequence in states && states[sequence] == Unread {
        states := states[sequence := Read];
      }
    }

    method Archive(sequence: nat)
      modifies this
      ensures State() == old(State()).(states := states)
      ensures states == if sequence in old(states) then old(states)[sequence := Archived] else old(states)
    {
      if sequence in states && states[sequence] != Archived {
        states := states[sequence := Archived];
      }
      assert sequence in states ==> states == states[sequence := states[sequence]];
    }
  }
}
