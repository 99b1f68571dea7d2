/** The game-session controller of src/game.js: the `Game` class with its
    builder, the pure transition functions that specify each of its
    operations, and what those transitions guarantee over whole runs. */
module CarrotGame {
  import opened Common

  /** The frozen `Reason` object: why a round stopped. */
  datatype Reason = Win | Lose | Cancel

  /** The string each member of `Reason` holds; this is what the stop
      listener receives. */
  function Tag(k: Reason): (t: string)
    ensures t in {"win", "lose", "cancel"}
  {
    match k
    case Win => "win"
    case Lose => "lose"
    case Cancel => "cancel"
  }

  /** Different reasons carry different strings, so a listener can tell
      them apart by value. */
  lemma TagsDistinct(a: Reason, b: Reason)
    requires a != b
    ensures Tag(a) != Tag(b)
  {
  }

  /** What the builder passes to the constructor. */
  datatype Config = Config(gameDuration: int, carrotCount: int, bugCount: int)

  /** Everything a `Game` updates:
      - `timer` is the handle last stored in `this.timer`;
      - `intervals` holds the browser's live intervals that this game set,
        each with the `remainingTimeSec` its callback has captured;
      - `timerText` and `scoreText` are what the game last wrote into the
        timer and score elements (None: the game has not written yet);
      - `listening` says whether a stop listener is registered, and
        `notified` lists every reason it has been called with. */
  datatype Session = Session(
    started: bool,
    score: int,
    timer: Option<nat>,
    intervals: map<nat, int>,
    nextHandle: nat,
    timerText: Option<Clock>,
    scoreText: Option<int>,
    listening: bool,
    notified: seq<Reason>)

  /** The state the constructor leaves: not started, score 0, no timer. */
  function Initial(): Session
  {
    Session(false, 0, None, map[], 1, None, None, false, [])
  }

  // ---------------------------------------------------------------------
  // The transitions
  // ---------------------------------------------------------------------

  /** stop(reason): not started, the current timer cleared, and the
      listener, if there is one, called once with `reason`. Nothing guards
      against a repeated call. */
  function Stopped(s: Session, reason: Reason): (r: Session)
    ensures !r.started
    ensures s.timer.Some? ==> s.timer.value !in r.intervals
    ensures forall h :: h in r.intervals <==> h in s.intervals && s.timer != Some(h)
    ensures forall h :: h in r.intervals ==> r.intervals[h] == s.intervals[h]
    ensures r.notified == if s.listening then s.notified + [reason] else s.notified
    ensures r.score == s.score && r.timer == s.timer && r.nextHandle == s.nextHandle
    ensures r.timerText == s.timerText && r.scoreText == s.scoreText && r.listening == s.listening
  {
    s.(started := false,
       intervals := ClearInterval(s.intervals, s.timer),
       notified := if s.listening then s.notified + [reason] else s.notified)
  }

  /** start(): score 0, started, the scoreboard shows carrotCount, and a new
      interval counts down from gameDuration. An interval that was already
      live is not cleared. */
  function Started(cfg: Config, s: Session): (r: Session)
    ensures r.started && r.score == 0
    ensures r.scoreText == Some(cfg.carrotCount)
    ensures r.timer == Some(s.nextHandle) && s.nextHandle in r.intervals
    ensures r.intervals[s.nextHandle] == cfg.gameDuration
    ensures r.timerText == Some(TimerText(cfg.gameDuration))
    ensures forall h :: h in r.intervals <==> h in s.intervals || h == s.nextHandle
    ensures forall h :: h in s.intervals && h != s.nextHandle ==> r.intervals[h] == s.intervals[h]
    ensures r.nextHandle > s.nextHandle
    ensures r.notified == s.notified && r.listening == s.listening
  {
    s.(score := 0,
       started := true,
       scoreText := Some(cfg.carrotCount),
       timerText := Some(TimerText(cfg.gameDuration)),
       timer := Some(s.nextHandle),
       intervals := s.intervals[s.nextHandle := cfg.gameDuration],
       nextHandle := s.nextHandle + 1)
  }

  /** onItemClick(item): ignored unless started. A carrot adds exactly one
      to the score and the scoreboard shows the carrots left; the round is
      won in the same step when the score reaches carrotCount. A bug loses
      the round whatever the score or the time left. */
  function AfterItemClick(cfg: Config, s: Session, item: ItemKind): (r: Session)
    ensures !s.started ==> r == s
    ensures s.started && item == Carrot ==>
              && r.score == s.score + 1
              && r.scoreText == Some(cfg.carrotCount - r.score)
              && (r.started <==> r.score != cfg.carrotCount)
              && (r.score == cfg.carrotCount ==> s.timer.Some? ==> s.timer.value !in r.intervals)
              && (r.score != cfg.carrotCount ==> r.intervals == s.intervals)
              && r.timer == s.timer && r.nextHandle == s.nextHandle
              && r.timerText == s.timerText && r.listening == s.listening
              && (forall g :: g in r.intervals <==> g in s.intervals && (r.score != cfg.carrotCount || s.timer != Some(g)))
              && (forall g :: g in r.intervals ==> r.intervals[g] == s.intervals[g])
              && r.notified == if r.score == cfg.carrotCount && s.listening then s.notified + [Win] else s.notified
    ensures s.started && item == Bug ==> r == Stopped(s, Lose)
    ensures s.notified <= r.notified && |r.notified| <= |s.notified| + 1
  {
    if !s.started then s
    else match item
      case Carrot =>
        var counted := s.(score := s.score + 1, scoreText := Some(cfg.carrotCount - (s.score + 1)));
        if counted.score == cfg.carrotCount then Stopped(counted, Win) else counted
      case Bug => Stopped(s, Lose)
  }

  /** One firing of the live interval `h` (the callback of startGameTimer).
      With time left it counts down by exactly one and shows the new time.
      With none left it clears the CURRENT timer (this.timer, not
      necessarily `h`) and stops: a win iff score equals carrotCount. */
  function AfterInterval(cfg: Config, s: Session, h: nat): (r: Session)
    requires h in s.intervals
    ensures s.intervals[h] > 0 ==>
              && h in r.intervals && r.intervals[h] == s.intervals[h] - 1
              && r.timerText == Some(TimerText(r.intervals[h]))
              && (forall g :: g in r.intervals <==> g in s.intervals)
              && (forall g :: g in s.intervals && g != h ==> r.intervals[g] == s.intervals[g])
              && r.started == s.started && r.score == s.score && r.notified == s.notified
              && r.timer == s.timer && r.scoreText == s.scoreText
              && r.nextHandle == s.nextHandle && r.listening == s.listening
    ensures s.intervals[h] <= 0 ==>
              && !r.started && r.score == s.score
              && (s.timer.Some? ==> s.timer.value !in r.intervals)
              && (forall g :: g in r.intervals <==> g in s.intervals && s.timer != Some(g))
              && (forall g :: g in r.intervals ==> r.intervals[g] == s.intervals[g])
              && r.timer == s.timer && r.timerText == s.timerText && r.scoreText == s.scoreText
              && r.nextHandle == s.nextHandle && r.listening == s.listening
              && r.notified == if s.listening then s.notified + [if cfg.carrotCount == s.score then Win else Lose] else s.notified
    ensures s.notified <= r.notified && |r.notified| <= |s.notified| + 1
  {
    var remaining := s.intervals[h];
    if remaining <= 0 then
      Stopped(s.(intervals := ClearInterval(s.intervals, s.timer)), if cfg.carrotCount == s.score then Win else Lose)
    else
      s.(intervals := s.intervals[h := remaining - 1], timerText := Some(TimerText(remaining - 1)))
  }

  /** The game button: cancel a started round, otherwise start one. */
  function AfterButton(cfg: Config, s: Session): (r: Session)
    ensures s.started ==> !r.started && r.score == s.score
    ensures s.started ==> r.notified == if s.listening then s.notified + [Cancel] else s.notified
    ensures !s.started ==> r.started && r.score == 0 && r.notified == s.notified
    ensures s.started ==> r == Stopped(s, Cancel)
    ensures !s.started ==> r == Started(cfg, s)
    ensures s.notified <= r.notified && |r.notified| <= |s.notified| + 1
  {
    if s.started then Stopped(s, Cancel) else Started(cfg, s)
  }

  // ---------------------------------------------------------------------
  // Runs of events
  // ---------------------------------------------------------------------

  /** What can happen to a game: its button, a click on an item, a firing of
      one of its intervals, or a direct call of start() (the host's banner). */
  datatype Event = ButtonClick | ItemClick(item: ItemKind) | IntervalFire(handle: nat) | StartCall

  function Apply(cfg: Config, s: Session, e: Event): Session
  {
    match e
    case ButtonClick => AfterButton(cfg, s)
    case ItemClick(item) => AfterItemClick(cfg, s, item)
    case IntervalFire(h) => if h in s.intervals then AfterInterval(cfg, s, h) else s
    case StartCall => Started(cfg, s)
  }

  function Run(cfg: Config, s: Session, es: seq<Event>): Session
    decreases |es|
  {
    if es == [] then s else Run(cfg, Apply(cfg, s, es[0]), es[1..])
  }

  lemma {:induction false} RunAppend(cfg: Config, s: Session, a: seq<Event>, b: seq<Event>)
    ensures Run(cfg, s, a + b) == Run(cfg, Run(cfg, s, a), b)
    decreases |a|
  {
    if a == [] {
      assert a + b == b;
    } else {
      assert (a + b)[0] == a[0];
      assert (a + b)[1..] == a[1..] + b;
      RunAppend(cfg, Apply(cfg, s, a[0]), a[1..], b);
    }
  }

  /** Running `n + 1` copies of an event is running `n` and then one more. */
  lemma RunCopiesStep(cfg: Config, s: Session, e: Event, n: nat)
    ensures Run(cfg, s, Copies(e, n + 1)) == Apply(cfg, Run(cfg, s, Copies(e, n)), e)
  {
    RunAppend(cfg, s, Copies(e, n), [e]);
    assert Run(cfg, Run(cfg, s, Copies(e, n)), [e]) == Run(cfg, Apply(cfg, Run(cfg, s, Copies(e, n)), e), []);
  }

  /** A button press on a stopped game starts it; the rest of the run goes
      on from the started state. */
  lemma RunFromButton(cfg: Config, s: Session, es: seq<Event>)
    requires !s.started
    ensures Run(cfg, s, [ButtonClick] + es) == Run(cfg, Started(cfg, s), es)
  {
    assert ([ButtonClick] + es)[0] == ButtonClick;
    assert ([ButtonClick] + es)[1..] == es;
  }

  // ---------------------------------------------------------------------
  // Invariants
  // ---------------------------------------------------------------------

  /** The part of the invariant that does not depend on whether a round
      runs: the score is not negative and, with at least one carrot, never
      above carrotCount; handles are below the next one; every countdown
      lies between 0 (or the duration, if that is negative) and the
      duration. */
  ghost predicate Settled(cfg: Config, s: Session)
  {
    && 0 <= s.score
    && (cfg.carrotCount > 0 ==> s.score <= cfg.carrotCount)
    && (forall h :: h in s.intervals ==> h < s.nextHandle)
    && (forall h :: h in s.intervals ==> s.intervals[h] <= cfg.gameDuration && (0 <= s.intervals[h] || s.intervals[h] == cfg.gameDuration))
  }

  /** What holds in every state a game can reach: Settled, and the game is
      started exactly when its current timer is live; a started game shows
      the carrots left and, with at least one carrot, is short of
      carrotCount. */
  ghost predicate Inv(cfg: Config, s: Session)
  {
    && Settled(cfg, s)
    && (s.started <==> s.timer.Some? && s.timer.value in s.intervals)
    && (s.started ==> s.scoreText == Some(cfg.carrotCount - s.score))
    && (s.started && cfg.carrotCount > 0 ==> s.score < cfg.carrotCount)
  }

  /** No interval is live except the current timer. */
  ghost predicate NoLeak(s: Session)
  {
    forall h :: h in s.intervals ==> s.timer == Some(h)
  }

  /** The states reachable without calling start() on a started game: no
      leaked interval, and a started game shows its own countdown. */
  ghost predicate Sound(cfg: Config, s: Session)
  {
    && Inv(cfg, s)
    && NoLeak(s)
    && (s.started ==> s.timerText == Some(TimerText(s.intervals[s.timer.value])))
  }

  lemma InitialIsSound(cfg: Config, listening: bool)
    ensures Sound(cfg, Initial().(listening := listening))
  {
  }

  /** stop() leads to a state of the invariant from any settled state. */
  lemma StoppedKeepsInv(cfg: Config, s: Session, reason: Reason)
    requires Settled(cfg, s)
    ensures Inv(cfg, Stopped(s, reason))
  {
  }

  /** A click on an item keeps the invariant: a carrot that completes the
      score and a bug both stop the round from a settled state. */
  lemma ItemClickKeepsInv(cfg: Config, s: Session, item: ItemKind)
    requires Inv(cfg, s)
    ensures Inv(cfg, AfterItemClick(cfg, s, item))
  {
    if s.started {
      match item
      case Carrot =>
        var counted := s.(score := s.score + 1, scoreText := Some(cfg.carrotCount - (s.score + 1)));
        if counted.score == cfg.carrotCount {
          StoppedKeepsInv(cfg, counted, Win);
        }
      case Bug =>
        StoppedKeepsInv(cfg, s, Lose);
    }
  }

  /** A firing of a live interval keeps the invariant: a countdown only
      goes down to 0, and one that has run out stops the round. */
  lemma IntervalKeepsInv(cfg: Config, s: Session, h: nat)
    requires Inv(cfg, s) && h in s.intervals
    ensures Inv(cfg, AfterInterval(cfg, s, h))
  {
    if s.intervals[h] <= 0 {
      var cleared := s.(intervals := ClearInterval(s.intervals, s.timer));
      StoppedKeepsInv(cfg, cleared, if cfg.carrotCount == s.score then Win else Lose);
    }
  }

  lemma ApplyKeepsInv(cfg: Config, s: Session, e: Event)
    requires Inv(cfg, s)
    ensures Inv(cfg, Apply(cfg, s, e))
  {
    match e
    case ButtonClick =>
      if s.started {
        StoppedKeepsInv(cfg, s, Cancel);
      } else {
        assert s.nextHandle !in s.intervals;
      }
    case ItemClick(item) =>
      ItemClickKeepsInv(cfg, s, item);
    case IntervalFire(h) =>
      if h in s.intervals {
        IntervalKeepsInv(cfg, s, h);
      }
    case StartCall =>
      assert s.nextHandle !in s.intervals;
  }

  lemma {:induction false} RunKeepsInv(cfg: Config, s: Session, es: seq<Event>)
    requires Inv(cfg, s)
    ensures Inv(cfg, Run(cfg, s, es))
    decreases |es|
  {
    if es != [] {
      ApplyKeepsInv(cfg, s, es[0]);
      RunKeepsInv(cfg, Apply(cfg, s, es[0]), es[1..]);
    }
  }

  /** Whatever the player, the timers and the host do, the score never
      exceeds carrotCount, and stays below it while the round runs. */
  lemma ScoreNeverExceedsCarrotCount(cfg: Config, listening: bool, es: seq<Event>)
    requires cfg.carrotCount > 0
    ensures var r := Run(cfg, Initial().(listening := listening), es);
              0 <= r.score <= cfg.carrotCount && (r.started ==> r.score < cfg.carrotCount)
  {
    RunKeepsInv(cfg, Initial().(listening := listening), es);
  }

  lemma ApplyKeepsSound(cfg: Config, s: Session, e: Event)
    requires Sound(cfg, s) && e != StartCall
    ensures Sound(cfg, Apply(cfg, s, e))
  {
    ApplyKeepsInv(cfg, s, e);
    if e == ButtonClick && !s.started {
      assert s.intervals == map[];
    }
  }

  /** Using only the game's own button, item clicks and timer, no interval
      ever leaks and the timer text always shows the running countdown. */
  lemma {:induction false} RunWithoutRestartKeepsSound(cfg: Config, s: Session, es: seq<Event>)
    requires Sound(cfg, s)
    requires forall i :: 0 <= i < |es| ==> es[i] != StartCall
    ensures Sound(cfg, Run(cfg, s, es))
    decreases |es|
  {
    if es != [] {
      ApplyKeepsSound(cfg, s, es[0]);
      RunWithoutRestartKeepsSound(cfg, Apply(cfg, s, es[0]), es[1..]);
    }
  }

  /** In a sound state at most one interval is live, and none once the
      round has ended: every way out of a round cancels its timer. */
  lemma SoundHasAtMostOneTimer(cfg: Config, s: Session)
    requires Sound(cfg, s)
    ensures |s.intervals| <= 1
    ensures !s.started ==> s.intervals == map[]
  {
    if s.timer.Some? && s.timer.value in s.intervals {
      assert s.intervals.Keys == {s.timer.value};
    } else {
      assert s.intervals.Keys == {};
    }
  }

  // ---------------------------------------------------------------------
  // Restarting a running game leaks its timer
  // ---------------------------------------------------------------------

  /** start() on a started game (the host's banner does this) leaves the
      old interval live: after cancelling, an interval still runs, and the
      state is no longer sound. */
  lemma RestartWhileRunningLeaks(cfg: Config, s: Session)
    requires Inv(cfg, s) && s.started
    ensures !Sound(cfg, Apply(cfg, s, StartCall))
    ensures var t := Run(cfg, s, [StartCall, ButtonClick]);
              !t.started && s.timer.value in t.intervals && t.intervals[s.timer.value] == s.intervals[s.timer.value]
  {
    var old_h := s.timer.value;
    var r := Apply(cfg, s, StartCall);
    assert old_h in r.intervals && r.timer != Some(old_h);
    assert Run(cfg, s, [StartCall, ButtonClick]) == Run(cfg, r, [ButtonClick]);
  }

  /** stop() has no guard against a second call: stopping a stopped game
      notifies the listener again. */
  lemma StopTwiceNotifiesTwice(s: Session, first: Reason, second: Reason)
    requires s.listening
    ensures var r := Stopped(Stopped(s, first), second);
              !r.started && r.notified == s.notified + [first, second]
  {
  }

  /** A leaked interval whose countdown has run out calls stop() on every
      firing: the listener is notified again each second, with no end. */
  lemma {:induction false} LeakedIntervalRepeatsStop(cfg: Config, s: Session, h: nat, n: nat)
    requires h in s.intervals && s.timer != Some(h) && s.intervals[h] <= 0 && s.listening
    ensures var r := Run(cfg, s, Copies(IntervalFire(h), n));
              && h in r.intervals && r.intervals[h] == s.intervals[h]
              && r.timer == s.timer && r.score == s.score && r.listening
              && r.notified == s.notified + Copies(if cfg.carrotCount == s.score then Win else Lose, n)
  {
    var outcome := if cfg.carrotCount == s.score then Win else Lose;
    if n > 0 {
      LeakedIntervalRepeatsStop(cfg, s, h, n - 1);
      RunCopiesStep(cfg, s, IntervalFire(h), n - 1);
      var p := Run(cfg, s, Copies(IntervalFire(h), n - 1));
      assert p.notified + [outcome] == s.notified + Copies(outcome, n);
    }
  }

  // ---------------------------------------------------------------------
  // How a round ends
  // ---------------------------------------------------------------------

  /** The first `k` firings of the current timer, with at least `k`
      seconds left, only count down. */
  lemma {:induction false} Countdown(cfg: Config, s: Session, k: nat)
    requires s.started && s.timer.Some? && s.timer.value in s.intervals
    requires k <= s.intervals[s.timer.value]
    ensures var h := s.timer.value;
            var r := Run(cfg, s, Copies(IntervalFire(h), k));
              && r.started && r.score == s.score && r.notified == s.notified && r.timer == s.timer
              && r.listening == s.listening
              && r.intervals == s.intervals[h := s.intervals[h] - k]
              && r == s.(intervals := s.intervals[h := s.intervals[h] - k],
                         timerText := if k == 0 then s.timerText else Some(TimerText(s.intervals[h] - k)))
              && r.timerText == if k == 0 then s.timerText else Some(TimerText(s.intervals[h] - k))
  {
    var h := s.timer.value;
    if k == 0 {
      assert s.intervals[h := s.intervals[h]] == s.intervals;
    } else {
      Countdown(cfg, s, k - 1);
      RunCopiesStep(cfg, s, IntervalFire(h), k - 1);
      var p := Run(cfg, s, Copies(IntervalFire(h), k - 1));
      assert p.intervals[h := p.intervals[h] - 1] == s.intervals[h := s.intervals[h] - k];
    }
  }

  /** A round nobody plays runs its whole countdown: after gameDuration
      firings it is still running (the timer showing 0), and it ends on
      firing gameDuration + 1, won only if carrotCount is 0. */
  lemma TimeoutEndsOnTickAfterDuration(cfg: Config, s: Session)
    requires cfg.gameDuration >= 0
    ensures var t := Started(cfg, s);
            var ticks := Copies(IntervalFire(s.nextHandle), cfg.gameDuration);
            var last := Run(cfg, t, ticks);
            var over := Run(cfg, t, ticks + [IntervalFire(s.nextHandle)]);
              && last.started && last.notified == s.notified && last.timerText == Some(Clock(0, 0))
              && !over.started && s.nextHandle !in over.intervals
              && over.notified == if s.listening then s.notified + [if cfg.carrotCount == 0 then Win else Lose] else s.notified
  {
    var t := Started(cfg, s);
    var h := s.nextHandle;
    var ticks := Copies(IntervalFire(h), cfg.gameDuration);
    Countdown(cfg, t, cfg.gameDuration);
    RunAppend(cfg, t, ticks, [IntervalFire(h)]);
    var last := Run(cfg, t, ticks);
    assert Run(cfg, last, [IntervalFire(h)]) == Apply(cfg, last, IntervalFire(h));
  }

  /** The first `k` carrot clicks of a round that needs more than `k`
      more carrots only count. */
  lemma {:induction false} CarrotClicks(cfg: Config, s: Session, k: nat)
    requires s.started && s.score + k < cfg.carrotCount
    requires s.scoreText == Some(cfg.carrotCount - s.score)
    ensures Run(cfg, s, Copies(ItemClick(Carrot), k)) == s.(score := s.score + k, scoreText := Some(cfg.carrotCount - (s.score + k)))
  {
    if k > 0 {
      CarrotClicks(cfg, s, k - 1);
      RunCopiesStep(cfg, s, ItemClick(Carrot), k - 1);
    }
  }

  /** Clicking carrotCount carrots wins the round on the last click, with
      exactly one Win notification, and cancels its timer; one click fewer
      leaves the round running. */
  lemma WinAfterAllCarrots(cfg: Config, s: Session)
    requires cfg.carrotCount >= 1
    ensures var t := Started(cfg, s);
            var before := Run(cfg, t, Copies(ItemClick(Carrot), cfg.carrotCount - 1));
            var after := Run(cfg, t, Copies(ItemClick(Carrot), cfg.carrotCount));
              && before.started && before.notified == s.notified
              && !after.started && after.score == cfg.carrotCount && s.nextHandle !in after.intervals
              && after.notified == if s.listening then s.notified + [Win] else s.notified
  {
    var t := Started(cfg, s);
    CarrotClicks(cfg, t, cfg.carrotCount - 1);
    RunCopiesStep(cfg, t, ItemClick(Carrot), cfg.carrotCount - 1);
  }

  // ---------------------------------------------------------------------
  // The imperative controller
  // ---------------------------------------------------------------------

  /** The `Game` class. Its button and field listeners are the methods
      OnButtonClick and OnItemClick; a firing of a live interval is
      OnInterval. Every method changes the state exactly as the transition
      function of the same name says. */
  class Game {
    const gameDuration: int
    const carrotCount: int
    const bugCount: int

    var started: bool
    var score: int
    var timer: Option<nat>
    var intervals: map<nat, int>
    var nextHandle: nat
    var timerText: Option<Clock>
    var scoreText: Option<int>
    var listening: bool
    var notified: seq<Reason>

    function Cfg(): Config
    {
      Config(gameDuration, carrotCount, bugCount)
    }

    function State(): Session
      reads this
    {
      Session(started, score, timer, intervals, nextHandle, timerText, scoreText, listening, notified)
    }

    constructor (gameDuration: int, carrotCount: int, bugCount: int)
      ensures Cfg() == Config(gameDuration, carrotCount, bugCount)
      ensures State() == Initial()
    {
      this.gameDuration := gameDuration;
      this.carrotCount := carrotCount;
      this.bugCount := bugCount;
      started := false;
      score := 0;
      timer := None;
      intervals := map[];
      nextHandle := 1;
      timerText := None;
      scoreText := None;
      listening := false;
      notified := [];
    }

    method SetGameStopListener()
      modifies this
      ensures State() == old(State()).(listening := true)
    {
      listening := true;
    }

    method Start()
      modifies this
      ensures State() == Started(Cfg(), old(State()))
    {
      score := 0;
      started := true;
      InitGame();
      StartGameTimer();
    }

    method Stop(reason: Reason)
      modifies this
      ensures State() == Stopped(old(State()), reason)
    {
      started := false;
      StopGameTimer();
      if listening {
        notified := notified + [reason];
      }
    }

    method OnItemClick(item: ItemKind)
      modifies this
      ensures State() == AfterItemClick(Cfg(), old(State()), item)
    {
      if !started {
        return;
      }
      match item
      case Carrot =>
        score := score + 1;
        UpdateScoreboard();
        if score == carrotCount {
          Stop(Win);
        }
      case Bug =>
        Stop(Lose);
    }

    method OnButtonClick()
      modifies this
      ensures State() == AfterButton(Cfg(), old(State()))
    {
      if started {
        Stop(Cancel);
      } else {
        Start();
      }
    }

    /** startGameTimer: the countdown starts at gameDuration, is shown, and
        a new interval is set and stored as the current timer. */
    method StartGameTimer()
      modifies this
      ensures State() == old(State()).(timerText := Some(TimerText(gameDuration)),
                                       timer := Some(old(nextHandle)),
                                       intervals := old(intervals)[old(nextHandle) := gameDuration],
                                       nextHandle := old(nextHandle) + 1)
    {
      var remainingTimeSec := gameDuration;
      UpdateTimerText(remainingTimeSec);
      timer := Some(nextHandle);
      intervals := intervals[nextHandle := remainingTimeSec];
      nextHandle := nextHandle + 1;
    }

    /** The interval callback, run when the live interval `h` fires. */
    method OnInterval(h: nat)
      requires h in intervals
      modifies this
      ensures State() == AfterInterval(Cfg(), old(State()), h)
    {
      var remainingTimeSec := intervals[h];
      if remainingTimeSec <= 0 {
        intervals := ClearInterval(intervals, timer);
        Stop(if carrotCount == score then Win else Lose);
        return;
      }
      remainingTimeSec := remainingTimeSec - 1;
      intervals := intervals[h := remainingTimeSec];
      UpdateTimerText(remainingTimeSec);
    }

    method StopGameTimer()
      modifies this
      ensures State() == old(State()).(intervals := ClearInterval(old(intervals), timer))
    {
      intervals := ClearInterval(intervals, timer);
    }

    method UpdateTimerText(time: int)
      modifies this
      ensures State() == old(State()).(timerText := Some(TimerText(time)))
    {
      timerText := Some(TimerText(time));
    }

    /** initGame: the scoreboard shows carrotCount (the field itself is
        re-populated by Field, which is not part of this model). */
    method InitGame()
      modifies this
      ensures State() == old(State()).(scoreText := Some(carrotCount))
    {
      scoreText := Some(carrotCount);
    }

    method UpdateScoreboard()
      modifies this
      ensures State() == old(State()).(scoreText := Some(carrotCount - score))
    {
      scoreText := Some(carrotCount - score);
    }
  }

  /** GameBuilder: chained setters that each record one setting and return
      the builder itself, and build(). */
  class GameBuilder {
    var gameDuration: Option<int>
    var carrotCount: Option<int>
    var bugCount: Option<int>

    constructor ()
      ensures gameDuration == None && carrotCount == None && bugCount == None
    {
      gameDuration, carrotCount, bugCount := None, None, None;
    }

    /** Spelled as in the source, with a lower-case `g`. */
    method WithgameDuration(duration: int) returns (b: GameBuilder)
      modifies this
      ensures b == this
      ensures gameDuration == Some(duration) && carrotCount == old(carrotCount) && bugCount == old(bugCount)
    {
      gameDuration := Some(duration);
      b := this;
    }

    method WithCarrotCount(num: int) returns (b: GameBuilder)
      modifies this
      ensures b == this
      ensures carrotCount == Some(num) && gameDuration == old(gameDuration) && bugCount == old(bugCount)
    {
      carrotCount := Some(num);
      b := this;
    }

    method WithBugCount(num: int) returns (b: GameBuilder)
      modifies this
      ensures b == this
      ensures bugCount == Some(num) && gameDuration == old(gameDuration) && carrotCount == old(carrotCount)
    {
      bugCount := Some(num);
      b := this;
    }

    method Build() returns (g: Game)
      requires gameDuration.Some? && carrotCount.Some? && bugCount.Some?
      ensures fresh(g)
      ensures g.Cfg() == Config(gameDuration.value, carrotCount.value, bugCount.value)
      ensures g.State() == Initial()
    {
      g := new Game(gameDuration.value, carrotCount.value, bugCount.value);
    }
  }
}
