/**
 Whole runs (Run, sweep and drainTicks in poller.go): sweeps driven by a
 one-slot ticker until shutdown, for every schedule of ticks.
 */
module Runs {
  import opened Wrappers
  import opened Model
  import opened Journal
  import opened Attempts
  import opened Sweeps

  /** Everything the poller has done: its place on the tapes, both journals, and all runner calls in order. */
  datatype State = State(cursor: Cursor, net: Log<PortData>, pcie: Log<PCIeEye>, trace: seq<Invocation>)

  const INITIAL := State(ORIGIN, [], [], [])

  ghost function NetworkCollector(w: World): Collector<PortData> {
    (c, t) => Collect(w, c, t)
  }

  ghost function PCIeCollector(w: World): Collector<PCIeEye> {
    (c, t) => CollectPCIe(w, c, t)
  }

  ghost function NetworkSweep(w: World, st: State, targets: seq<Target>): Swept<PortData> {
    SweepDevices(NO_DATA, NetworkCollector(w), true, st.cursor, targets, LastPublished(st.net))
  }

  ghost function PCIeSweep(w: World, st: State, targets: seq<Target>): Swept<PCIeEye> {
    SweepDevices(NO_PCIE_EYE, PCIeCollector(w), false, st.cursor, targets, LastPublished(st.pcie))
  }

  ghost function NetworkPhase(w: World, st: State, targets: seq<Target>): State {
    var s := NetworkSweep(w, st, targets);
    State(s.cursor, st.net + [Discovered(targets)] + s.events, st.pcie, st.trace + Invocations(s.events))
  }

  ghost function PCIePhase(w: World, st: State, targets: seq<Target>): State {
    var s := PCIeSweep(w, st, targets);
    State(s.cursor, st.net, st.pcie + [Discovered(targets)] + s.events, st.trace + Invocations(s.events))
  }

  function Begun(st: State): State {
    st.(cursor := st.cursor.(discoveries := st.cursor.discoveries + 1))
  }

  /** The PCIe phase runs only when enabled, and only after a complete network phase. */
  ghost function Sweep(w: World, st: State): State {
    var found := w.host.discover(st.cursor.discoveries);
    var begun := Begun(st);
    if found.None? then begun
    else
      var after := NetworkPhase(w, begun, found.value);
      if NetworkSweep(w, begun, found.value).completed && w.showPCIeEye
      then PCIePhase(w, after, found.value)
      else after
  }

  // ----- the ticker -----

  /** A ticker holds at most one undelivered tick, identified by its number; further ticks coalesce. */
  datatype Ticker = Ticker(fired: nat, pending: Option<nat>, coalesced: nat) {
    function Fire(): Ticker {
      if pending.None? then Ticker(fired + 1, Some(fired), coalesced)
      else Ticker(fired + 1, pending, coalesced + 1)
    }

    function FireTimes(n: nat): Ticker
      decreases n
    {
      if n == 0 then this else Fire().FireTimes(n - 1)
    }

    function Taken(): Ticker { this.(pending := None) }
  }

  /**
   One turn of the select loop: how many ticks fire while it waits, whether it
   prefers a cancelled context over a ready tick, and how many ticks fire during
   the sweep and between the sweep's end and the drain.
   */
  datatype Turn = Turn(wait: nat, done: bool, during: nat, late: nat)

  /** A tick-driven sweep: the tick that started it and how many had fired when the previous sweep ended. */
  datatype Start = Start(tick: nat, firedBefore: nat)

  datatype Run = Run(
    state: State,
    ticker: Ticker,
    ended: nat,
    starts: seq<Start>,
    overlaps: nat,
    takenInShutdown: nat,
    stopped: bool)

  function Look(st: State): State {
    st.(cursor := st.cursor.Sampled())
  }

  ghost function Begin(w: World): Run {
    var looked := Look(INITIAL);
    if w.host.Cancelled(0) then Run(looked, Ticker(0, None, 0), 0, [], 0, 0, true)
    else Run(Sweep(w, looked), Ticker(0, None, 0), 0, [], 0, 0, false)
  }

  ghost function Step(w: World, r: Run, turn: Turn): Run {
    if r.stopped then r
    else
      var ticker := r.ticker.FireTimes(turn.wait);
      var cancelled := w.host.Cancelled(r.state.cursor.samples);
      var looked := r.(state := Look(r.state), ticker := ticker);
      if cancelled && (turn.done || ticker.pending.None?) then looked.(stopped := true)
      else if ticker.pending.None? then looked
      else Drain(w, TickSweep(w, looked, turn.during), turn.late)
  }

  /** A received tick starts a sweep. */
  ghost function TickSweep(w: World, r: Run, during: nat): Run
    requires r.ticker.pending.Some?
  {
    var ticker := r.ticker.Taken().FireTimes(during);
    r.(state := Sweep(w, r.state), ticker := ticker, ended := ticker.fired,
       starts := r.starts + [Start(r.ticker.pending.value, r.ended)])
  }

  /** Discard the tick that fired during the sweep, counting it unless shutting down. */
  ghost function Drain(w: World, r: Run, late: nat): Run {
    var ticker := r.ticker.FireTimes(late);
    if ticker.pending.None? then r.(ticker := ticker)
    else
      var drained := r.(ticker := ticker.Taken(), state := Look(r.state));
      if w.host.Cancelled(r.state.cursor.samples)
      then drained.(takenInShutdown := r.takenInShutdown + 1)
      else drained.(overlaps := r.overlaps + 1)
  }

  ghost function RunAfter(w: World, turns: seq<Turn>): Run {
    if turns == [] then Begin(w)
    else Step(w, RunAfter(w, turns[..|turns| - 1]), turns[|turns| - 1])
  }

  // ----- ticks -----

  /** Every tick fired is accounted for, and no sweep was started by a tick older than the one before it. */
  ghost predicate TicksAccounted(r: Run) {
    && r.ticker.fired == |r.starts| + r.overlaps + r.takenInShutdown + r.ticker.coalesced
                         + (if r.ticker.pending.Some? then 1 else 0)
    && r.overlaps + r.takenInShutdown <= |r.starts|
    && r.ended <= r.ticker.fired
    && (r.ticker.pending.Some? ==> r.ended <= r.ticker.pending.value < r.ticker.fired)
    && (forall i | 0 <= i < |r.starts| :: r.starts[i].firedBefore <= r.starts[i].tick < r.ended)
    && (forall i, j | 0 <= i < j < |r.starts| :: r.starts[i].tick < r.starts[j].firedBefore)
  }

  lemma {:induction false} FireTimesAccounts(t: Ticker, n: nat)
    ensures var u := t.FireTimes(n);
            && u.fired == t.fired + n
            && u.fired - u.coalesced - (if u.pending.Some? then 1 else 0)
               == t.fired - t.coalesced - (if t.pending.Some? then 1 else 0)
            && (if t.pending.Some? then u.pending == t.pending
                else u.pending == if n == 0 then None else Some(t.fired))
    decreases n
  {
    if n > 0 {
      FireTimesAccounts(t.Fire(), n - 1);
    }
  }

  lemma TickSweepAccounted(w: World, r: Run, during: nat, late: nat)
    requires TicksAccounted(r) && r.ticker.pending.Some?
    ensures TicksAccounted(Drain(w, TickSweep(w, r, during), late))
  {
    hide Sweep, Ticker.FireTimes;
    var swept := TickSweep(w, r, during);
    FireTimesAccounts(r.ticker.Taken(), during);
    FireTimesAccounts(swept.ticker, late);
    assert r.ticker.pending.value < swept.ended || during == 0;
  }

  /**
   Over any run: ticks fired are the tick-driven sweeps, the counted overlaps,
   the coalesced ticks, a pending one and those taken while shutting down;
   overlaps never exceed tick-driven sweeps; and every such sweep was started by
   a tick that fired after the previous sweep had ended.
   */
  lemma {:induction false} TickConservation(w: World, turns: seq<Turn>)
    ensures TicksAccounted(RunAfter(w, turns))
  {
    hide Sweep, Ticker.FireTimes, Drain, TickSweep;
    if turns != [] {
      var r := RunAfter(w, turns[..|turns| - 1]);
      var turn := turns[|turns| - 1];
      TickConservation(w, turns[..|turns| - 1]);
      FireTimesAccounts(r.ticker, turn.wait);
      var looked := r.(state := Look(r.state), ticker := r.ticker.FireTimes(turn.wait));
      assert TicksAccounted(looked);
      if looked.ticker.pending.Some? {
        TickSweepAccounted(w, looked, turn.during, turn.late);
      }
    }
  }

  // ----- what one turn does, in terms of ticks and the context alone -----

  /** A tick is ready: one was left in the channel or one fires while the poller waits. */
  predicate TickReady(r: Run, turn: Turn) { r.ticker.pending.Some? || turn.wait > 0 }

  /** The context is found cancelled and wins the race, which it does alone when no tick is ready. */
  predicate DoneWins(w: World, r: Run, turn: Turn) {
    w.host.Cancelled(r.state.cursor.samples) && (turn.done || (r.ticker.pending.None? && turn.wait == 0))
  }

  lemma RunSnoc(w: World, turns: seq<Turn>, turn: Turn)
    ensures RunAfter(w, turns + [turn]) == Step(w, RunAfter(w, turns), turn)
  {
    assert (turns + [turn])[..|turns|] == turns;
  }

  /**
   The poller stops exactly when the context is done and wins, a stopped poller
   stays stopped, and stopping changes nothing: no sweep, no runner call, no count.
   */
  lemma StopsExactly(w: World, turns: seq<Turn>, turn: Turn)
    ensures RunAfter(w, []).stopped <==> w.host.Cancelled(0)
    ensures var r, next := RunAfter(w, turns), RunAfter(w, turns + [turn]);
            && (next.stopped <==> r.stopped || DoneWins(w, r, turn))
            && (next.stopped ==>
                  && next.state.net == r.state.net && next.state.pcie == r.state.pcie && next.state.trace == r.state.trace
                  && next.starts == r.starts && next.overlaps == r.overlaps && next.takenInShutdown == r.takenInShutdown)
  {
    hide Sweep, Ticker.FireTimes;
    RunSnoc(w, turns, turn);
    FireTimesAccounts(RunAfter(w, turns).ticker, turn.wait);
  }

  /**
   A running poller that does not stop sweeps exactly when a tick is ready, once,
   for the oldest such tick; and it counts an overlap exactly when another tick
   fires during that sweep or before the drain and the context is still live.
   */
  lemma SweepsExactly(w: World, turns: seq<Turn>, turn: Turn)
    requires !RunAfter(w, turns + [turn]).stopped
    ensures var r, next := RunAfter(w, turns), RunAfter(w, turns + [turn]);
            var looked := Look(r.state);
            var swept, taken := Sweep(w, looked), turn.during > 0 || turn.late > 0;
            && (!TickReady(r, turn) ==>
                  next.state == looked && next.starts == r.starts && next.overlaps == r.overlaps
                  && next.takenInShutdown == r.takenInShutdown)
            && (TickReady(r, turn) ==>
                  && next.starts == r.starts + [Start(if r.ticker.pending.Some? then r.ticker.pending.value else r.ticker.fired, r.ended)]
                  && next.state == (if taken then Look(swept) else swept)
                  && next.overlaps == r.overlaps + (if taken && !w.host.Cancelled(swept.cursor.samples) then 1 else 0)
                  && next.takenInShutdown
                     == r.takenInShutdown + (if taken && w.host.Cancelled(swept.cursor.samples) then 1 else 0))
  {
    hide Sweep, Ticker.FireTimes;
    RunSnoc(w, turns, turn);
    var r := RunAfter(w, turns);
    FireTimesAccounts(r.ticker, turn.wait);
    var ticker := r.ticker.FireTimes(turn.wait).Taken();
    FireTimesAccounts(ticker, turn.during);
    FireTimesAccounts(ticker.FireTimes(turn.during), turn.late);
  }

  /** A poller whose context is live at the start sweeps before it waits for any tick. */
  lemma SweepsAtStart(w: World)
    ensures RunAfter(w, []).state == if w.host.Cancelled(0) then Look(INITIAL) else Sweep(w, Look(INITIAL))
  {
  }
}
