/** The earlier, single-file version of the game (main_default.js): the same
    round lifecycle kept in module-level variables, with the field's items
    held and removed directly, and the outcome shown in a pop-up. */
module LegacyGame {
  import opened Common

  const CarrotCount := 5
  const GameDurationSec := 5

  const ReplayMessage: string := "REPLAY\U{261D}\U{1F3FC}"
  const WonMessage: string := "YOU WON \U{1F44D}\U{1F3FC}"
  const LostMessage: string := "YOU LOST \U{1F44E}\U{1F3FC}"

  /** The element a click on the field lands on: the item at a position
      among the field's children, or the field itself. */
  datatype Target = Item(index: nat) | Background

  /** The number of items of `kind` in `field`. */
  function Count(field: seq<ItemKind>, kind: ItemKind): (n: nat)
    ensures n <= |field|
  {
    if field == [] then 0
    else Count(field[..|field| - 1], kind) + (if field[|field| - 1] == kind then 1 else 0)
  }

  lemma {:induction false} CountAppend(a: seq<ItemKind>, b: seq<ItemKind>, kind: ItemKind)
    ensures Count(a + b, kind) == Count(a, kind) + Count(b, kind)
    decreases |b|
  {
    if b == [] {
      assert a + b == a;
    } else {
      CountAppend(a, b[..|b| - 1], kind);
      assert (a + b)[..|a + b| - 1] == a + b[..|b| - 1];
    }
  }

  lemma {:induction false} CountCopies(x: ItemKind, n: nat, kind: ItemKind)
    ensures Count(Copies(x, n), kind) == if x == kind then n else 0
  {
    if n > 0 {
      CountCopies(x, n - 1, kind);
      assert Copies(x, n)[..n - 1] == Copies(x, n - 1);
    }
  }

  /** The field with its item at `i` removed (target.remove()). */
  function Removed(field: seq<ItemKind>, i: nat): (r: seq<ItemKind>)
    requires i < |field|
    ensures |r| == |field| - 1
    ensures forall j :: 0 <= j < i ==> r[j] == field[j]
    ensures forall j :: i <= j < |r| ==> r[j] == field[j + 1]
    ensures multiset(r) + multiset{field[i]} == multiset(field)
  {
    assert field == field[..i] + [field[i]] + field[i + 1..];
    field[..i] + field[i + 1..]
  }

  /** Removing one item takes exactly one from the count of its kind and
      leaves the other kind's count alone. */
  lemma CountRemoved(field: seq<ItemKind>, i: nat, kind: ItemKind)
    requires i < |field|
    ensures Count(Removed(field, i), kind) + (if field[i] == kind then 1 else 0) == Count(field, kind)
  {
    assert field == field[..i] + [field[i]] + field[i + 1..];
    CountAppend(field[..i] + [field[i]], field[i + 1..], kind);
    CountAppend(field[..i], [field[i]], kind);
    CountAppend(field[..i], field[i + 1..], kind);
    assert [field[i]][..0] == [];
  }

  /** The field initGame lays out: 5 carrots, then 5 bugs (literals in the
      source, not CARROT_COUNT). */
  function InitialField(): seq<ItemKind>
  {
    Copies(Carrot, 5) + Copies(Bug, 5)
  }

  /** The laid-out field holds exactly CARROT_COUNT carrots and 5 bugs, and
      nothing else. */
  lemma InitialFieldCounts()
    ensures |InitialField()| == 10
    ensures Count(InitialField(), Carrot) == CarrotCount
    ensures Count(InitialField(), Bug) == 5
  {
    CountAppend(Copies(Carrot, 5), Copies(Bug, 5), Carrot);
    CountAppend(Copies(Carrot, 5), Copies(Bug, 5), Bug);
    CountCopies(Carrot, 5, Carrot);
    CountCopies(Carrot, 5, Bug);
    CountCopies(Bug, 5, Carrot);
    CountCopies(Bug, 5, Bug);
  }

  /** The module-level variables and the page elements the game writes:
      `timer`, `intervals` and `nextHandle` model the interval timers as in
      src/game.js; the texts are None until the game first writes them. */
  datatype Globals = Globals(
    started: bool,
    score: int,
    timer: Option<nat>,
    intervals: map<nat, int>,
    nextHandle: nat,
    timerText: Option<Clock>,
    scoreText: Option<int>,
    field: seq<ItemKind>,
    popUpShown: bool,
    popUpText: Option<string>)

  /** startGame(): score 0, started, a fresh field, the scoreboard at
      CARROT_COUNT, and a new interval counting down from GAME_DURATION_SEC;
      a live interval is not cleared. */
  function GameStarted(g: Globals): (r: Globals)
    ensures r.started && r.score == 0 && r.scoreText == Some(CarrotCount)
    ensures |r.field| == 10 && Count(r.field, Carrot) == CarrotCount && Count(r.field, Bug) == 5
    ensures r.timer == Some(g.nextHandle) && r.nextHandle > g.nextHandle
    ensures r.timerText == Some(TimerText(GameDurationSec))
    ensures forall h :: h in r.intervals <==> h in g.intervals || h == g.nextHandle
    ensures r.intervals[g.nextHandle] == GameDurationSec
    ensures forall h :: h in g.intervals && h != g.nextHandle ==> r.intervals[h] == g.intervals[h]
    ensures r.popUpShown == g.popUpShown && r.popUpText == g.popUpText
  {
    InitialFieldCounts();
    g.(score := 0,
       started := true,
       field := InitialField(),
       scoreText := Some(CarrotCount),
       timerText := Some(TimerText(GameDurationSec)),
       timer := Some(g.nextHandle),
       intervals := g.intervals[g.nextHandle := GameDurationSec],
       nextHandle := g.nextHandle + 1)
  }

  /** stopGame() and finishGame(win): not started, the current timer
      cleared, and the pop-up shown with `text`. */
  function GameEnded(g: Globals, text: string): (r: Globals)
    ensures !r.started && r.popUpShown && r.popUpText == Some(text)
    ensures g.timer.Some? ==> g.timer.value !in r.intervals
    ensures forall h :: h in r.intervals <==> h in g.intervals && g.timer != Some(h)
    ensures forall h :: h in r.intervals ==> r.intervals[h] == g.intervals[h]
    ensures r.score == g.score && r.field == g.field && r.timer == g.timer && r.nextHandle == g.nextHandle
    ensures r.timerText == g.timerText && r.scoreText == g.scoreText
  {
    g.(started := false,
       intervals := ClearInterval(g.intervals, g.timer),
       popUpShown := true,
       popUpText := Some(text))
  }

  /** The part of the invariant that does not depend on whether a round
      runs, and so holds on entry to stopGame() and finishGame(): the score
      plus the carrots still on the field never exceeds CARROT_COUNT, so
      the score never exceeds the carrots placed; countdowns stay in
      [0, GAME_DURATION_SEC]. */
  ghost predicate Settled(g: Globals)
  {
    && 0 <= g.score
    && g.score + Count(g.field, Carrot) <= CarrotCount
    && (forall h :: h in g.intervals ==> h < g.nextHandle)
    && (forall h :: h in g.intervals ==> 0 <= g.intervals[h] <= GameDurationSec)
  }

  /** What every handler keeps: Settled, and the game runs exactly when its
      current timer is live; while it runs, the score plus the carrots on
      the field is exactly CARROT_COUNT, the score is short of it, and the
      scoreboard shows the carrots left. */
  ghost predicate Consistent(g: Globals)
  {
    && Settled(g)
    && (g.started <==> g.timer.Some? && g.timer.value in g.intervals)
    && (g.started ==> g.score < CarrotCount && g.score + Count(g.field, Carrot) == CarrotCount)
    && (g.started ==> g.scoreText == Some(CarrotCount - g.score))
  }

  /** onFieldClick(event): ignored unless started and unless an item is
      hit. A carrot is removed and scores exactly one, the scoreboard shows
      the carrots left, and the round is won in the same step when the
      score reaches CARROT_COUNT. A bug stops the timer and loses. */
  function FieldClicked(g: Globals, target: Target): (r: Globals)
    requires target.Item? ==> target.index < |g.field|
    ensures !g.started || target.Background? ==> r == g
    ensures g.started && target.Item? && g.field[target.index] == Carrot ==>
              && r.field == Removed(g.field, target.index)
              && r.score == g.score + 1
              && r.scoreText == Some(CarrotCount - r.score)
              && (r.started <==> r.score != CarrotCount)
              && (r.score == CarrotCount ==> r.popUpShown && r.popUpText == Some(WonMessage))
              && (r.score == CarrotCount ==> g.timer.Some? ==> g.timer.value !in r.intervals)
              && (r.score != CarrotCount ==> r.intervals == g.intervals && r.popUpShown == g.popUpShown && r.popUpText == g.popUpText)
              && r.timer == g.timer && r.nextHandle == g.nextHandle && r.timerText == g.timerText
              && (forall h :: h in r.intervals <==> h in g.intervals && (r.score != CarrotCount || g.timer != Some(h)))
              && (forall h :: h in r.intervals ==> r.intervals[h] == g.intervals[h])
    ensures g.started && target.Item? && g.field[target.index] == Bug ==> r == GameEnded(g, LostMessage)
  {
    if !g.started then g
    else match target
      case Background => g
      case Item(i) =>
        if g.field[i] == Carrot then
          var counted := g.(field := Removed(g.field, i), score := g.score + 1, scoreText := Some(CarrotCount - (g.score + 1)));
          if counted.score == CarrotCount then GameEnded(counted, WonMessage) else counted
        else
          var cleared := g.(intervals := ClearInterval(g.intervals, g.timer));
          assert ClearInterval(cleared.intervals, g.timer) == ClearInterval(g.intervals, g.timer);
          GameEnded(cleared, LostMessage)
  }

  /** A click on the field keeps the invariant: with the carrot it scores
      for removed, the score never overtakes the carrots placed. */
  lemma FieldClickKeepsConsistent(g: Globals, target: Target)
    requires Consistent(g)
    requires target.Item? ==> target.index < |g.field|
    ensures Consistent(FieldClicked(g, target))
  {
    if g.started && target.Item? {
      CountRemoved(g.field, target.index, Carrot);
    }
  }

  /** Ending a round, from any settled state, restores the invariant: the
      game no longer runs and its current timer is no longer live. */
  lemma GameEndedKeepsConsistent(g: Globals, text: string)
    requires Settled(g)
    ensures Consistent(GameEnded(g, text))
  {
  }

  class Legacy {
    var started: bool
    var score: int
    var timer: Option<nat>
    var intervals: map<nat, int>
    var nextHandle: nat
    var timerText: Option<Clock>
    var scoreText: Option<int>
    var field: seq<ItemKind>
    var popUpShown: bool
    var popUpText: Option<string>

    function State(): Globals
      reads this
    {
      Globals(started, score, timer, intervals, nextHandle, timerText, scoreText, field, popUpShown, popUpText)
    }

    /** The invariant of the page's variables; see Consistent. */
    ghost predicate Valid()
      reads this
    {
      Consistent(State())
    }

    /** The page as loaded: no round, score 0, an empty field, the pop-up
        hidden. */
    constructor ()
      ensures Valid()
      ensures State() == Globals(false, 0, None, map[], 1, None, None, [], false, None)
    {
      started := false;
      score := 0;
      timer := None;
      intervals := map[];
      nextHandle := 1;
      timerText := None;
      scoreText := None;
      field := [];
      popUpShown := false;
      popUpText := None;
    }

    /** The game button: stopGame() while started, startGame() otherwise. */
    method OnGameButtonClick()
      requires Valid()
      modifies this
      ensures Valid()
      ensures State() == if old(started) then GameEnded(old(State()), ReplayMessage) else GameStarted(old(State()))
    {
      if started {
        GameEndedKeepsConsistent(State(), ReplayMessage);
        StopGame();
      } else {
        StartGame();
      }
    }

    /** The pop-up's refresh button: startGame() whatever the state, then
        the pop-up is hidden. */
    method OnRefreshClick()
      requires Valid()
      modifies this
      ensures Valid()
      ensures State() == GameStarted(old(State())).(popUpShown := false)
    {
      StartGame();
      HidePopUp();
    }

    method StartGame()
      requires Valid()
      modifies this
      ensures Valid()
      ensures State() == GameStarted(old(State()))
    {
      score := 0;
      started := true;
      InitGame();
      StartGameTimer();
      InitialFieldCounts();
    }

    method StopGame()
      modifies this
      ensures State() == GameEnded(old(State()), ReplayMessage)
    {
      started := false;
      StopGameTimer();
      ShowPopUpWithText(ReplayMessage);
    }

    method FinishGame(win: bool)
      modifies this
      ensures State() == GameEnded(old(State()), if win then WonMessage else LostMessage)
    {
      started := false;
      StopGameTimer();
      ShowPopUpWithText(if win then WonMessage else LostMessage);
    }

    method StartGameTimer()
      modifies this
      ensures State() == old(State()).(timerText := Some(TimerText(GameDurationSec)),
                                       timer := Some(old(nextHandle)),
                                       intervals := old(intervals)[old(nextHandle) := GameDurationSec],
                                       nextHandle := old(nextHandle) + 1)
    {
      var remainingTimeSec := GameDurationSec;
      UpdateTimerText(remainingTimeSec);
      timer := Some(nextHandle);
      intervals := intervals[nextHandle := remainingTimeSec];
      nextHandle := nextHandle + 1;
    }

    /** The interval callback, run when the live interval `h` fires: count
        down while time is left; otherwise clear the current timer and
        finish, won iff the score is CARROT_COUNT. */
    method OnInterval(h: nat)
      requires Valid() && h in intervals
      modifies this
      ensures Valid()
      ensures old(intervals)[h] <= 0 ==>
                State() == GameEnded(old(State()), if CarrotCount == old(score) then WonMessage else LostMessage)
      ensures old(intervals)[h] > 0 ==>
                State() == old(State()).(intervals := old(intervals)[h := old(intervals)[h] - 1],
                                         timerText := Some(TimerText(old(intervals)[h] - 1)))
    {
      var remainingTimeSec := intervals[h];
      if remainingTimeSec <= 0 {
        intervals := ClearInterval(intervals, timer);
        GameEndedKeepsConsistent(State(), if CarrotCount == score then WonMessage else LostMessage);
        FinishGame(CarrotCount == score);
        return;
      }
      remainingTimeSec := remainingTimeSec - 1;
      intervals := intervals[h := remainingTimeSec];
      UpdateTimerText(remainingTimeSec);
    }

    method StopGameTimer()
      modifies this
      ensures State() == old(State()).(intervals := ClearInterval(old(intervals), timer))
    {
      intervals := ClearInterval(intervals, timer);
    }

    method UpdateTimerText(time: int)
      modifies this
      ensures State() == old(State()).(timerText := Some(TimerText(time)))
    {
      timerText := Some(TimerText(time));
    }

    method ShowPopUpWithText(text: string)
      modifies this
      ensures State() == old(State()).(popUpShown := true, popUpText := Some(text))
    {
      popUpText := Some(text);
      popUpShown := true;
    }

    method HidePopUp()
      modifies this
      ensures State() == old(State()).(popUpShown := false)
    {
      popUpShown := false;
    }

    /** initGame(): the field emptied, then 5 carrots and 5 bugs added; the
        scoreboard shows CARROT_COUNT. */
    method InitGame()
      modifies this
      ensures State() == old(State()).(field := InitialField(), scoreText := Some(CarrotCount))
    {
      field := [];
      scoreText := Some(CarrotCount);
      AddItem(Carrot, 5);
      AddItem(Bug, 5);
    }

    /** addItem(className, count): exactly `count` items of that kind are
        appended to the field (their random positions are not modelled). */
    method AddItem(kind: ItemKind, count: nat)
      modifies this
      ensures State() == old(State()).(field := old(field) + Copies(kind, count))
    {
      var i := 0;
      while i < count
        invariant 0 <= i <= count
        invariant State() == old(State()).(field := old(field) + Copies(kind, i))
      {
        field := field + [kind];
        i := i + 1;
      }
    }

    /** The field's click listener. */
    method OnFieldClick(target: Target)
      requires Valid()
      requires target.Item? ==> target.index < |field|
      modifies this
      ensures Valid()
      ensures State() == FieldClicked(old(State()), target)
    {
      ghost var g := State();
      if started {
        match target
        case Item(i) =>
          if field[i] == Carrot {
            field := Removed(field, i);
            score := score + 1;
            UpdateScoreboard();
            ghost var counted := g.(field := Removed(g.field, i), score := g.score + 1, scoreText := Some(CarrotCount - (g.score + 1)));
            assert State() == counted;
            if score == CarrotCount {
              FinishGame(true);
              assert State() == GameEnded(counted, WonMessage);
            }
          } else {
            StopGameTimer();
            FinishGame(false);
            assert State() == GameEnded(g.(intervals := ClearInterval(g.intervals, g.timer)), LostMessage);
          }
        case Background =>
      }
      assert State() == FieldClicked(g, target);
      FieldClickKeepsConsistent(g, target);
    }

    method UpdateScoreboard()
      modifies this
      ensures State() == old(State()).(scoreText := Some(CarrotCount - score))
    {
      scoreText := Some(CarrotCount - score);
    }
  }
}
