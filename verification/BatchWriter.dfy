/** One table of the ClickHouse batch writer: the bounded channel filled by Push
    (internal/analytics/batch_writer.go) and the flush loop that empties it
    (internal/analytics/flush.go). */
module BatchWriter {

  /** The channel depth of every table. */
  const CHANNEL_SIZE := 4096

  /** The rows of one flushFn call and whether it succeeded. */
  datatype Batch<T> = Batch(rows: seq<T>, ok: bool)

  datatype Loop = Running | Draining | Exited

  datatype Table<T> = Table(
    ch: seq<T>, buf: seq<T>, handed: seq<Batch<T>>, rowsWritten: nat, flushErrors: nat,
    loop: Loop, cancelled: bool, closed: bool)

  /** Pushes, cancellation and closing come from outside; the others are the cases of the two select
      statements. `ok` is the outcome of the flush that the case makes, if it makes one. */
  datatype Event<T> =
    | Push(row: T)
    | Cancel
    | Close
    | Receive
    | ReceiveClosed(ok: bool)
    | Tick(ok: bool)
    | Done
    | DrainRow
    | DrainEnd(ok: bool)

  function Fresh<T>(): Table<T> {
    Table([], [], [], 0, 0, Running, false, false)
  }

  predicate Accepts<T>(t: Table<T>) {
    !t.closed && |t.ch| < CHANNEL_SIZE
  }

  predicate Drops<T>(t: Table<T>) {
    !t.closed && |t.ch| >= CHANNEL_SIZE
  }

  function Flushed<T>(t: Table<T>, ok: bool): Table<T> {
    if t.buf == [] then t
    else if ok then t.(buf := [], handed := t.handed + [Batch(t.buf, true)], rowsWritten := t.rowsWritten + |t.buf|)
    else t.(buf := [], handed := t.handed + [Batch(t.buf, false)], flushErrors := t.flushErrors + 1)
  }

  function Received<T>(t: Table<T>): Table<T>
    requires t.ch != []
  {
    t.(buf := t.buf + [t.ch[0]], ch := t.ch[1..])
  }

  predicate Enabled<T>(t: Table<T>, e: Event<T>) {
    match e
    case Push(_) => !t.closed
    case Cancel => true
    case Close => true
    case Receive => t.loop == Running && t.ch != []
    case ReceiveClosed(_) => t.loop == Running && t.ch == [] && t.closed
    case Tick(_) => t.loop == Running
    case Done => t.loop == Running && t.cancelled
    case DrainRow => t.loop == Draining && t.ch != []
    case DrainEnd(_) => t.loop == Draining && t.ch == []
  }

  function Step<T>(t: Table<T>, e: Event<T>): Table<T> {
    if !Enabled(t, e) then t
    else match e {
      case Push(row) => if Accepts(t) then t.(ch := t.ch + [row]) else t.(flushErrors := t.flushErrors + 1)
      case Cancel => t.(cancelled := true)
      case Close => t.(closed := true)
      case Receive => Received(t)
      case ReceiveClosed(ok) => Flushed(t, ok).(loop := Exited)
      case Tick(ok) => Flushed(t, ok)
      case Done => t.(loop := Draining)
      case DrainRow => Received(t)
      case DrainEnd(ok) => Flushed(t, ok).(loop := Exited)
    }
  }

  function Run<T>(t: Table<T>, es: seq<Event<T>>): Table<T> {
    if es == [] then t else Step(Run(t, es[..|es| - 1]), es[|es| - 1])
  }

  // ---------------------------------------------------------------------------------------------
  // The writer itself
  // ---------------------------------------------------------------------------------------------

  class TableWriter<T> {
    var ch: seq<T>
    var buf: seq<T>
    var handed: seq<Batch<T>>
    var rowsWritten: nat
    var flushErrors: nat
    var loop: Loop
    var cancelled: bool
    var closed: bool

    ghost function View(): Table<T>
      reads this
    {
      Table(ch, buf, handed, rowsWritten, flushErrors, loop, cancelled, closed)
    }

    constructor ()
      ensures View() == Fresh()
    {
      ch, buf, handed, rowsWritten, flushErrors := [], [], [], 0, 0;
      loop, cancelled, closed := Running, false, false;
    }

    /** The non-blocking send: a full channel drops the row and counts it. */
    method PushRow(row: T)
      requires !closed
      modifies this
      ensures View() == Step(old(View()), Push(row))
    {
      if |ch| < CHANNEL_SIZE {
        ch := ch + [row];
      } else {
        flushErrors := flushErrors + 1;
      }
    }

    /** doFlush: hands the buffer over once, whatever becomes of it. */
    method DoFlush(ok: bool)
      modifies this
      ensures View() == Flushed(old(View()), ok)
    {
      if |buf| == 0 {
        return;
      }
      var rows := buf;
      buf := [];
      handed := handed + [Batch(rows, ok)];
      if !ok {
        flushErrors := flushErrors + 1;
        return;
      }
      rowsWritten := rowsWritten + |rows|;
    }

    method FromOutside(e: Event<T>)
      requires e.Push? || e.Cancel? || e.Close?
      modifies this
      ensures View() == Step(old(View()), e)
    {
      match e {
        case Push(row) => if !closed { PushRow(row); }
        case Cancel => cancelled := true;
        case Close => closed := true;
      }
    }

    /** The loop, driven by a schedule that says which select case fires next and when other
        goroutines push, cancel or close. It returns the number of events it consumed. */
    method FlushLoop(es: seq<Event<T>>) returns (n: nat)
      requires loop == Running
      modifies this
      ensures n <= |es| && View() == Run(old(View()), es[..n])
      ensures n == |es| || loop == Exited
    {
      n := 0;
      while n < |es|
        invariant n <= |es| && loop == Running && View() == Run(old(View()), es[..n])
      {
        var e := es[n];
        assert es[..n + 1][..n] == es[..n];
        n := n + 1;
        match e {
          case Push(_) => FromOutside(e);
          case Cancel => FromOutside(e);
          case Close => FromOutside(e);
          case Receive => if ch != [] { buf, ch := buf + [ch[0]], ch[1..]; }
          case ReceiveClosed(ok) =>
            if ch == [] && closed {
              DoFlush(ok);
              loop := Exited;
              return;
            }
          case Tick(ok) => DoFlush(ok);
          case Done =>
            if cancelled {
              loop := Draining;
              n := Drain(es, n, old(View()));
              return;
            }
          case DrainRow =>
          case DrainEnd(_) =>
        }
      }
    }

    /** The inner select: rows already in the channel are taken until it is found empty. */
    method Drain(es: seq<Event<T>>, start: nat, ghost first: Table<T>) returns (n: nat)
      requires loop == Draining && start <= |es| && View() == Run(first, es[..start])
      modifies this
      ensures start <= n <= |es| && View() == Run(first, es[..n])
      ensures n == |es| || loop == Exited
    {
      n := start;
      while n < |es|
        invariant start <= n <= |es| && loop == Draining && View() == Run(first, es[..n])
      {
        var e := es[n];
        assert es[..n + 1][..n] == es[..n];
        n := n + 1;
        match e {
          case Push(_) => FromOutside(e);
          case Cancel => FromOutside(e);
          case Close => FromOutside(e);
          case DrainRow => if ch != [] { buf, ch := buf + [ch[0]], ch[1..]; }
          case DrainEnd(ok) =>
            if ch == [] {
              DoFlush(ok);
              loop := Exited;
              return;
            }
          case _ =>
        }
      }
    }
  }

  // ---------------------------------------------------------------------------------------------
  // Conservation
  // ---------------------------------------------------------------------------------------------

  /** The rows that Push accepted, in order. */
  function Accepted<T>(es: seq<Event<T>>): seq<T> {
    if es == [] then []
    else
      var n := |es| - 1;
      Accepted(es[..n]) + if es[n].Push? && Accepts(Run(Fresh(), es[..n])) then [es[n].row] else []
  }

  /** The rows that Push dropped. */
  function Dropped<T>(es: seq<Event<T>>): seq<T> {
    if es == [] then []
    else
      var n := |es| - 1;
      Dropped(es[..n]) + if es[n].Push? && Drops(Run(Fresh(), es[..n])) then [es[n].row] else []
  }

  /** Calls of Push on an open channel. */
  function Pushes<T>(es: seq<Event<T>>): nat {
    if es == [] then 0
    else
      var n := |es| - 1;
      Pushes(es[..n]) + if es[n].Push? && !Run(Fresh(), es[..n]).closed then 1 else 0
  }

  function Rows<T>(bs: seq<Batch<T>>): seq<T> {
    if bs == [] then [] else Rows(bs[..|bs| - 1]) + bs[|bs| - 1].rows
  }

  /** The number of rows in batches with this outcome. */
  function RowsWith<T>(bs: seq<Batch<T>>, ok: bool): nat {
    if bs == [] then 0
    else RowsWith(bs[..|bs| - 1], ok) + if bs[|bs| - 1].ok == ok then |bs[|bs| - 1].rows| else 0
  }

  function FailedBatches<T>(bs: seq<Batch<T>>): nat {
    if bs == [] then 0 else FailedBatches(bs[..|bs| - 1]) + if bs[|bs| - 1].ok then 0 else 1
  }

  /** Every row in the system, in the order in which it was accepted. */
  function InFlight<T>(t: Table<T>): seq<T> {
    Rows(t.handed) + t.buf + t.ch
  }

  lemma RowsSnoc<T>(bs: seq<Batch<T>>, b: Batch<T>)
    ensures Rows(bs + [b]) == Rows(bs) + b.rows
    ensures RowsWith(bs + [b], true) == RowsWith(bs, true) + if b.ok then |b.rows| else 0
    ensures RowsWith(bs + [b], false) == RowsWith(bs, false) + if b.ok then 0 else |b.rows|
    ensures FailedBatches(bs + [b]) == FailedBatches(bs) + if b.ok then 0 else 1
  {
    assert (bs + [b])[..|bs|] == bs;
  }

  lemma FlushConserves<T>(t: Table<T>, ok: bool)
    ensures var t' := Flushed(t, ok);
      && InFlight(t') == InFlight(t)
      && t'.rowsWritten - t.rowsWritten == RowsWith(t'.handed, true) - RowsWith(t.handed, true)
      && t'.flushErrors - t.flushErrors == FailedBatches(t'.handed) - FailedBatches(t.handed)
  {
    hide Rows, RowsWith, FailedBatches;
    RowsSnoc(t.handed, Batch(t.buf, ok));
    if t.buf != [] {
      assert Rows(t.handed) + t.buf == Rows(t.handed) + t.buf + [];
    }
  }

  lemma ReceiveConserves<T>(t: Table<T>)
    requires t.ch != []
    ensures InFlight(Received(t)) == InFlight(t)
  {
    hide Rows;
    var handed := Rows(t.handed);
    assert handed + (t.buf + [t.ch[0]]) + t.ch[1..] == handed + t.buf + ([t.ch[0]] + t.ch[1..]);
  }

  lemma PushConserves<T>(t: Table<T>, row: T)
    ensures InFlight(t.(ch := t.ch + [row])) == InFlight(t) + [row]
  {
    hide Rows;
    assert Rows(t.handed) + t.buf + (t.ch + [row]) == Rows(t.handed) + t.buf + t.ch + [row];
  }

  lemma StepConserves<T>(t: Table<T>, e: Event<T>)
    ensures var t' := Step(t, e);
      && InFlight(t') == InFlight(t) + (if e.Push? && Accepts(t) then [e.row] else [])
      && t'.rowsWritten - t.rowsWritten == RowsWith(t'.handed, true) - RowsWith(t.handed, true)
      && t'.flushErrors - t.flushErrors
         == FailedBatches(t'.handed) - FailedBatches(t.handed) + (if e.Push? && Drops(t) then 1 else 0)
  {
    hide RowsWith, FailedBatches, Flushed, InFlight, Received;
    var t' := Step(t, e);
    if !Enabled(t, e) {
      assert t' == t;
    } else if e.Push? && Accepts(t) {
      PushConserves(t, e.row);
    } else if e.Receive? || e.DrainRow? {
      ReceiveConserves(t);
      ReceiveCounts(t);
    } else if e.Tick? || e.ReceiveClosed? || e.DrainEnd? {
      FlushConserves(t, e.ok);
      SameRows(Flushed(t, e.ok), t');
    } else {
      SameRows(t, t');
    }
  }

  lemma ReceiveCounts<T>(t: Table<T>)
    requires t.ch != []
    ensures Received(t).handed == t.handed && Received(t).rowsWritten == t.rowsWritten
    ensures Received(t).flushErrors == t.flushErrors
  {
  }

  lemma SameRows<T>(t: Table<T>, t': Table<T>)
    requires t'.handed == t.handed && t'.buf == t.buf && t'.ch == t.ch
    ensures InFlight(t') == InFlight(t)
  {
  }

  /** Nothing is lost, duplicated or reordered on the way: in every run the accepted rows are, in
      order, the rows of all batches handed to flushFn, then the buffer, then the channel. */
  lemma {:induction false} Conservation<T>(es: seq<Event<T>>)
    ensures Accepted(es) == InFlight(Run(Fresh(), es))
  {
    hide Step, InFlight, Accepts;
    if es == [] {
      NothingInFlight<T>();
    } else {
      Conservation(es[..|es| - 1]);
      StepConserves(Run(Fresh(), es[..|es| - 1]), es[|es| - 1]);
    }
  }

  lemma NothingInFlight<T>()
    ensures InFlight(Fresh<T>()) == []
  {
  }

  /** RowsWritten is the number of rows in successful batches; FlushErrors adds up dropped rows and
      failed batches, so it counts two different things. */
  lemma {:induction false} Counters<T>(es: seq<Event<T>>)
    ensures var t := Run(Fresh(), es);
      && t.rowsWritten == RowsWith(t.handed, true)
      && t.flushErrors == |Dropped(es)| + FailedBatches(t.handed)
      && Pushes(es) == |Accepted(es)| + |Dropped(es)|
  {
    hide Step, RowsWith, FailedBatches;
    if es == [] {
      assert RowsWith<T>([], true) == 0 && FailedBatches<T>([]) == 0 by {
        EmptyCounts<T>();
      }
    } else {
      Counters(es[..|es| - 1]);
      StepConserves(Run(Fresh(), es[..|es| - 1]), es[|es| - 1]);
    }
  }

  lemma EmptyCounts<T>()
    ensures RowsWith<T>([], true) == 0 && RowsWith<T>([], false) == 0 && FailedBatches<T>([]) == 0
  {
  }

  lemma {:induction false} RowsSplit<T>(bs: seq<Batch<T>>)
    ensures |Rows(bs)| == RowsWith(bs, true) + RowsWith(bs, false)
  {
    if bs != [] { RowsSplit(bs[..|bs| - 1]); }
  }

  /** Rows pushed = dropped + written + in failed batches + still pending. */
  lemma Balance<T>(es: seq<Event<T>>)
    ensures var t := Run(Fresh(), es);
      Pushes(es) == |Dropped(es)| + t.rowsWritten + RowsWith(t.handed, false) + |t.buf| + |t.ch|
  {
    Conservation(es);
    Counters(es);
    RowsSplit(Run(Fresh(), es).handed);
  }

  /** When the loop returns, everything accepted up to that moment has been handed over, exactly once. */
  lemma ExitHandsOverEverything<T>(es: seq<Event<T>>, e: Event<T>)
    requires Run(Fresh(), es).loop != Exited && Step(Run(Fresh(), es), e).loop == Exited
    ensures Accepted(es) == Rows(Step(Run(Fresh(), es), e).handed)
    ensures Step(Run(Fresh(), es), e).buf == [] && Step(Run(Fresh(), es), e).ch == []
  {
    hide Run, Rows;
    var t := Run(Fresh(), es);
    Conservation(es);
    FlushConserves(t, e.ok);
    var t' := Flushed(t, e.ok);
    assert InFlight(t') == Rows(t'.handed) + [] + [];
  }

  /** After that the writer hands over nothing more: rows pushed later stay in the channel. */
  lemma {:induction false} NothingAfterExit<T>(t: Table<T>, es: seq<Event<T>>)
    requires t.loop == Exited
    ensures Run(t, es).loop == Exited && Run(t, es).handed == t.handed && Run(t, es).buf == t.buf
    ensures t.ch <= Run(t, es).ch
  {
    if es != [] { NothingAfterExit(t, es[..|es| - 1]); }
  }

  /** The channel keeps its bound and flushFn is never called without rows. */
  lemma {:induction false} Bounds<T>(es: seq<Event<T>>)
    ensures |Run(Fresh<T>(), es).ch| <= CHANNEL_SIZE
    ensures forall b | b in Run(Fresh<T>(), es).handed :: b.rows != []
  {
    if es != [] { Bounds(es[..|es| - 1]); }
  }

  // ---------------------------------------------------------------------------------------------
  // Delivery: the cases of the loop, seen from outside
  // ---------------------------------------------------------------------------------------------

  /** The batches with `rows` handed over next, if there are any. */
  function HandOver<T(==)>(handed: seq<Batch<T>>, rows: seq<T>, ok: bool): seq<Batch<T>> {
    if rows == [] then handed else handed + [Batch(rows, ok)]
  }

  lemma RunSnoc<T>(t: Table<T>, es: seq<Event<T>>, e: Event<T>)
    ensures Run(t, es + [e]) == Step(Run(t, es), e)
  {
    hide Step;
    assert (es + [e])[..|es|] == es;
  }

  lemma {:induction false} RunJoin<T>(t: Table<T>, xs: seq<Event<T>>, ys: seq<Event<T>>)
    ensures Run(t, xs + ys) == Run(Run(t, xs), ys)
  {
    hide Step;
    if ys == [] {
      assert xs + ys == xs;
    } else {
      var n := |ys| - 1;
      RunJoin(t, xs, ys[..n]);
      assert (xs + ys)[..|xs| + n] == xs + ys[..n];
    }
  }

  /** `t` with its buffer handed over. */
  function Emptied<T(==)>(t: Table<T>, ok: bool): Table<T> {
    t.(buf := [], handed := HandOver(t.handed, t.buf, ok),
       rowsWritten := t.rowsWritten + (if ok then |t.buf| else 0),
       flushErrors := t.flushErrors + (if !ok && t.buf != [] then 1 else 0))
  }

  lemma FlushingSteps<T>(t: Table<T>, ok: bool)
    ensures t.loop == Running ==> Step(t, Tick(ok)) == Emptied(t, ok)
    ensures t.loop == Draining && t.ch == [] ==> Step(t, DrainEnd(ok)) == Emptied(t, ok).(loop := Exited)
    ensures t.loop == Running && t.ch == [] && t.closed ==> Step(t, ReceiveClosed(ok)) == Emptied(t, ok).(loop := Exited)
  {
  }

  /** Right after a tick of a running loop nothing is buffered: the accepted rows are those handed over
      and then the channel. The rows that were buffered make exactly one new batch, with the outcome of
      its flush; without any there is none. */
  lemma TickEmptiesBuffer<T>(es: seq<Event<T>>, ok: bool)
    requires Run(Fresh(), es).loop == Running
    ensures var t, t' := Run(Fresh(), es), Run(Fresh(), es + [Tick(ok)]);
      && t'.buf == [] && t'.ch == t.ch && t'.loop == Running
      && Accepted(es + [Tick(ok)]) == Accepted(es) == Rows(t'.handed) + t'.ch
      && t'.handed == (if t.buf == [] then t.handed else t.handed + [Batch(t.buf, ok)])
      && t'.rowsWritten == t.rowsWritten + (if ok then |t.buf| else 0)
      && t'.flushErrors == t.flushErrors + (if !ok && t.buf != [] then 1 else 0)
  {
    hide Run, Step, Rows, Accepted;
    var es' := es + [Tick(ok)];
    RunSnoc(Fresh(), es, Tick(ok));
    FlushingSteps(Run(Fresh(), es), ok);
    TickAcceptsNothing(es, ok);
    Conservation(es');
    var t' := Run(Fresh(), es');
    assert Rows(t'.handed) + [] + t'.ch == Rows(t'.handed) + t'.ch;
  }

  lemma TickAcceptsNothing<T>(es: seq<Event<T>>, ok: bool)
    ensures Accepted(es + [Tick(ok)]) == Accepted(es)
  {
    hide Run;
    assert (es + [Tick(ok)])[..|es|] == es;
  }

  /** n receives of a running loop move the n oldest rows of the channel into the buffer, in order; so do
      n drain steps of a draining one. */
  lemma {:induction false} TakesOldestRows<T>(t: Table<T>, n: nat, e: Event<T>)
    requires n <= |t.ch| && ((e == Receive && t.loop == Running) || (e == DrainRow && t.loop == Draining))
    ensures Run(t, seq(n, i => e)) == t.(buf := t.buf + t.ch[..n], ch := t.ch[n..])
  {
    var es := seq(n, i => e);
    if n == 0 {
      assert t.buf + t.ch[..0] == t.buf;
    } else {
      TakesOldestRows(t, n - 1, e);
      assert es[..n - 1] == seq(n - 1, i => e);
      assert t.buf + t.ch[..n - 1] + [t.ch[n - 1]] == t.buf + t.ch[..n];
      assert t.ch[n - 1..][1..] == t.ch[n..];
    }
  }

  lemma TakesAllRows<T>(es: seq<Event<T>>, e: Event<T>)
    requires var t := Run(Fresh(), es); (e == Receive && t.loop == Running) || (e == DrainRow && t.loop == Draining)
    ensures var t := Run(Fresh(), es);
      Run(Fresh(), es + seq(|t.ch|, i => e)) == t.(buf := t.buf + t.ch, ch := [])
  {
    hide Run;
    var t := Run(Fresh(), es);
    RunJoin(Fresh(), es, seq(|t.ch|, i => e));
    TakesOldestRows(t, |t.ch|, e);
    assert t.ch[..|t.ch|] == t.ch;
  }

  lemma PushStep<T>(t: Table<T>, row: T)
    requires !t.closed
    ensures Step(t, Push(row)) == if |t.ch| < CHANNEL_SIZE then t.(ch := t.ch + [row]) else t.(flushErrors := t.flushErrors + 1)
  {
  }

  /** While the loop runs, a row pushed into an open channel with room reaches flushFn: once the rows
      before it and it have been received, the next tick hands over everything buffered and queued, in
      order, in one batch that ends with that row. */
  lemma PushedRowIsDelivered<T>(es: seq<Event<T>>, row: T, ok: bool)
    requires var t := Run(Fresh(), es); t.loop == Running && !t.closed && |t.ch| < CHANNEL_SIZE
    ensures var t := Run(Fresh(), es);
      var t' := Run(Fresh(), es + [Push(row)] + seq(|t.ch| + 1, i => Receive) + [Tick(ok)]);
      && t'.buf == [] && t'.ch == [] && t'.loop == Running
      && t'.handed == t.handed + [Batch(t.buf + t.ch + [row], ok)]
      && t'.rowsWritten == t.rowsWritten + (if ok then |t.buf| + |t.ch| + 1 else 0)
      && t'.flushErrors == t.flushErrors + (if ok then 0 else 1)
  {
    hide Run, Step;
    var t := Run(Fresh(), es);
    RunSnoc(Fresh(), es, Push(row));
    PushStep(t, row);
    TakesAllRows(es + [Push(row)], Receive);
    var es' := es + [Push(row)] + seq(|t.ch| + 1, i => Receive);
    RunSnoc(Fresh(), es', Tick(ok));
    FlushingSteps(Run(Fresh(), es'), ok);
    assert t.buf + (t.ch + [row]) == t.buf + t.ch + [row];
  }

  /** A full channel keeps its rows: the push is dropped and counted. */
  lemma FullChannelDrops<T>(es: seq<Event<T>>, row: T)
    requires var t := Run(Fresh(), es); !t.closed && |t.ch| >= CHANNEL_SIZE
    ensures var t := Run(Fresh(), es);
      Run(Fresh(), es + [Push(row)]) == t.(flushErrors := t.flushErrors + 1)
    ensures Dropped(es + [Push(row)]) == Dropped(es) + [row]
  {
    RunSnoc(Fresh(), es, Push(row));
    assert (es + [Push(row)])[..|es|] == es;
  }

  /** After a cancellation, wherever it comes, the drain takes every queued row and the loop returns with
      all of them handed over in at most one more batch. */
  lemma CancelDelivers<T>(es: seq<Event<T>>, ok: bool)
    requires Run(Fresh(), es).loop == Running
    ensures var t := Run(Fresh(), es);
      var t' := Run(Fresh(), es + [Cancel, Done] + seq(|t.ch|, i => DrainRow) + [DrainEnd(ok)]);
      && t'.loop == Exited && t'.buf == [] && t'.ch == []
      && t'.handed == HandOver(t.handed, t.buf + t.ch, ok)
  {
    var t := Run(Fresh(), es);
    assert Step(Step(t, Cancel), Done) == t.(cancelled := true, loop := Draining);
    hide Run, Step;
    RunSnoc(Fresh(), es, Cancel);
    RunSnoc(Fresh(), es + [Cancel], Done);
    assert es + [Cancel] + [Done] == es + [Cancel, Done];
    TakesAllRows(es + [Cancel, Done], DrainRow);
    var es' := es + [Cancel, Done] + seq(|t.ch|, i => DrainRow);
    RunSnoc(Fresh(), es', DrainEnd(ok));
    FlushingSteps(Run(Fresh(), es'), ok);
  }

  /** The same when the channel is closed instead. */
  lemma CloseDelivers<T>(es: seq<Event<T>>, ok: bool)
    requires Run(Fresh(), es).loop == Running
    ensures var t := Run(Fresh(), es);
      var t' := Run(Fresh(), es + [Close] + seq(|t.ch|, i => Receive) + [ReceiveClosed(ok)]);
      && t'.loop == Exited && t'.buf == [] && t'.ch == []
      && t'.handed == HandOver(t.handed, t.buf + t.ch, ok)
  {
    var t := Run(Fresh(), es);
    assert Step(t, Close) == t.(closed := true);
    hide Run, Step;
    RunSnoc(Fresh(), es, Close);
    TakesAllRows(es + [Close], Receive);
    var es' := es + [Close] + seq(|t.ch|, i => Receive);
    RunSnoc(Fresh(), es', ReceiveClosed(ok));
    FlushingSteps(Run(Fresh(), es'), ok);
  }

  // ---------------------------------------------------------------------------------------------
  // Shutdown: flushFn is called with the context whose cancellation started it
  // ---------------------------------------------------------------------------------------------

  /** No flush succeeds once the context is cancelled. */
  ghost predicate RefusesCancelled<T>(es: seq<Event<T>>) {
    forall i | 0 <= i < |es| && (es[i].Tick? || es[i].ReceiveClosed? || es[i].DrainEnd?) ::
      Run(Fresh(), es[..i]).cancelled ==> !es[i].ok
  }

  ghost predicate AllFailed<T>(bs: seq<Batch<T>>) {
    forall i | 0 <= i < |bs| :: !bs[i].ok
  }

  lemma FailingStep<T>(t: Table<T>, e: Event<T>)
    requires t.cancelled && (e.Tick? || e.ReceiveClosed? || e.DrainEnd? ==> !e.ok)
    ensures var t' := Step(t, e);
      && t'.cancelled && t'.rowsWritten == t.rowsWritten
      && (t'.handed == t.handed || t'.handed == t.handed + [Batch(t.buf, false)])
  {
  }

  /** If flushFn refuses a cancelled context, nothing is written after the cancellation: every batch
      handed over since is a failed one. */
  lemma {:induction false} NothingWrittenAfterCancel<T>(es: seq<Event<T>>, a: nat)
    requires a <= |es| && Run(Fresh(), es[..a]).cancelled && RefusesCancelled(es)
    ensures var t, t' := Run(Fresh(), es[..a]), Run(Fresh(), es);
      && t'.cancelled && t'.rowsWritten == t.rowsWritten
      && t.handed <= t'.handed && AllFailed(t'.handed[|t.handed|..])
    decreases |es|
  {
    hide Step;
    if a == |es| {
      assert es[..a] == es;
    } else {
      var n := |es| - 1;
      assert es[..n][..a] == es[..a];
      PrefixRefuses(es, n);
      NothingWrittenAfterCancel(es[..n], a);
      FailingStep(Run(Fresh(), es[..n]), es[n]);
    }
  }

  lemma PrefixRefuses<T>(es: seq<Event<T>>, n: nat)
    requires n <= |es| && RefusesCancelled(es)
    ensures RefusesCancelled(es[..n])
  {
    hide Run;
    forall i | 0 <= i < n && (es[..n][i].Tick? || es[..n][i].ReceiveClosed? || es[..n][i].DrainEnd?)
      ensures Run(Fresh(), es[..n][..i]).cancelled ==> !es[..n][i].ok
    {
      assert es[..n][..i] == es[..i] && es[..n][i] == es[i];
    }
  }

  lemma {:induction false} RowsConcat<T>(xs: seq<Batch<T>>, ys: seq<Batch<T>>)
    ensures Rows(xs + ys) == Rows(xs) + Rows(ys)
  {
    if ys == [] {
      assert xs + ys == xs;
    } else {
      var n := |ys| - 1;
      RowsConcat(xs, ys[..n]);
      assert xs + ys == (xs + ys[..n]) + [ys[n]] && ys == ys[..n] + [ys[n]];
      RowsSnoc(xs + ys[..n], ys[n]);
      RowsSnoc(ys[..n], ys[n]);
    }
  }

  /** So the drain saves nothing: when the loop returns at its last event, the accepted rows are those
      handed over before the cancellation followed by rows of failed batches only. */
  lemma DrainedRowsAreLost<T>(es: seq<Event<T>>, a: nat)
    requires a < |es| && Run(Fresh(), es[..a]).cancelled && RefusesCancelled(es)
    requires Run(Fresh(), es[..|es| - 1]).loop != Exited && Run(Fresh(), es).loop == Exited
    ensures var t, t' := Run(Fresh(), es[..a]), Run(Fresh(), es);
      && t.handed <= t'.handed && AllFailed(t'.handed[|t.handed|..]) && t'.rowsWritten == t.rowsWritten
      && Accepted(es[..|es| - 1]) == Rows(t.handed) + Rows(t'.handed[|t.handed|..])
  {
    var n := |es| - 1;
    assert Run(Fresh(), es) == Step(Run(Fresh(), es[..n]), es[n]);
    hide Run, Step, Rows;
    NothingWrittenAfterCancel(es, a);
    ExitHandsOverEverything(es[..n], es[n]);
    var t, t' := Run(Fresh(), es[..a]), Run(Fresh(), es);
    RowsConcat(t.handed, t'.handed[|t.handed|..]);
    assert t.handed + t'.handed[|t.handed|..] == t'.handed;
  }
}
