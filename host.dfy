/** The host page of src/main.js: it builds one game (5 seconds, 3 carrots,
    3 bugs), listens for its stops, turns each stop reason into a banner
    message and a sound, and restarts the game when the banner is clicked. */
module Host {
  import opened Common
  import opened CarrotGame

  /** The sounds the stop listener plays (playAlert, playWin, playBug). */
  datatype Tune = Alert | WinTune | BugSound

  /** What the listener shows and plays for one stop. */
  datatype Banner = Banner(message: string, sound: Tune)

  datatype Result<T> = Ok(value: T) | Err(error: string)

  const CancelMessage: string := "Go For It Again? \U{261D}\U{1F3FC}"
  const WinMessage: string := "YOU WON \U{1F44D}\U{1F3FC}"
  const LoseMessage: string := "YOU LOST \U{1F44E}\U{1F3FC}"
  const InvalidReason: string := "not valid reason"

  /** The configuration the host's builder chain sets. */
  const HostConfig: Config := Config(5, 3, 3)

  /** The listener's switch over the reason it receives: each of the three
      reasons has its own message and sound; any other value throws
      'not valid reason' (an Err here), before any banner is shown. */
  function StopBanner(reason: string): (r: Result<Banner>)
    ensures r.Ok? <==> exists k: Reason :: Tag(k) == reason
    ensures reason == Tag(Cancel) ==> r == Ok(Banner(CancelMessage, Alert))
    ensures reason == Tag(Win) ==> r == Ok(Banner(WinMessage, WinTune))
    ensures reason == Tag(Lose) ==> r == Ok(Banner(LoseMessage, BugSound))
    ensures r.Err? ==> r.error == InvalidReason
  {
    if reason == Tag(Cancel) then Ok(Banner(CancelMessage, Alert))
    else if reason == Tag(Win) then Ok(Banner(WinMessage, WinTune))
    else if reason == Tag(Lose) then Ok(Banner(LoseMessage, BugSound))
    else Err(InvalidReason)
  }

  /** The banner for a reason the game reports: the default branch is never
      taken for one of those. */
  function BannerFor(k: Reason): (b: Banner)
    ensures StopBanner(Tag(k)) == Ok(b)
  {
    StopBanner(Tag(k)).value
  }

  /** The banners for a list of reported reasons, in order. */
  function BannersFor(rs: seq<Reason>): (bs: seq<Banner>)
    ensures |bs| == |rs|
    ensures forall i :: 0 <= i < |rs| ==> bs[i] == BannerFor(rs[i])
  {
    if rs == [] then [] else BannersFor(rs[..|rs| - 1]) + [BannerFor(rs[|rs| - 1])]
  }

  /** Different reasons give different messages and different sounds, so
      the banner alone tells how the round ended. */
  lemma BannersTellReasonsApart(a: Reason, b: Reason)
    requires a != b
    ensures BannerFor(a).message != BannerFor(b).message
    ensures BannerFor(a).sound != BannerFor(b).sound
  {
  }

  /** The host: the game it built and every banner its stop listener has
      shown, with the sound played for it. */
  class Host {
    const game: Game
    var announced: seq<Banner>

    ghost predicate Valid()
      reads this, game
    {
      game.listening && game.Cfg() == HostConfig
    }

    /** Builds the game with duration 5, 3 carrots and 3 bugs, and registers
        the stop listener. */
    constructor ()
      ensures Valid() && fresh(game)
      ensures game.State() == Initial().(listening := true)
      ensures announced == []
    {
      var builder := new GameBuilder();
      var chained := builder.WithgameDuration(5);
      chained := chained.WithCarrotCount(3);
      chained := chained.WithBugCount(3);
      var g := chained.Build();
      g.SetGameStopListener();
      game := g;
      announced := [];
    }

    /** The stop listener: the banner for `reason` is shown once and its
        sound played; an unknown reason throws and nothing is shown. */
    method OnGameStop(reason: string) returns (r: Result<Banner>)
      modifies this
      ensures r == StopBanner(reason)
      ensures announced == if r.Ok? then old(announced) + [r.value] else old(announced)
    {
      var message: string;
      var sound: Tune;
      if reason == Tag(Cancel) {
        message, sound := CancelMessage, Alert;
      } else if reason == Tag(Win) {
        message, sound := WinMessage, WinTune;
      } else if reason == Tag(Lose) {
        message, sound := LoseMessage, BugSound;
      } else {
        return Err(InvalidReason);
      }
      announced := announced + [Banner(message, sound)];
      r := Ok(Banner(message, sound));
    }

    /** The game calls its listener synchronously inside stop(); here the
        listener receives the reason the game reported since `before`. */
    method Deliver(before: nat)
      requires before <= |game.notified| <= before + 1
      modifies this
      ensures announced == old(announced) + BannersFor(game.notified[before..])
    {
      if |game.notified| == before + 1 {
        var k := game.notified[before];
        assert game.notified[before..] == [k];
        var shown := OnGameStop(Tag(k));
      } else {
        assert game.notified[before..] == [];
      }
    }

    /** A click on the game's button, and the banner it leads to. */
    method PressGameButton()
      requires Valid()
      modifies this, game
      ensures Valid()
      ensures game.State() == AfterButton(HostConfig, old(game.State()))
      ensures announced == old(announced) + BannersFor(game.notified[|old(game.notified)|..])
    {
      var before := |game.notified|;
      game.OnButtonClick();
      Deliver(before);
    }

    /** A click on an item of the field, and the banner it leads to. */
    method ClickItem(item: ItemKind)
      requires Valid()
      modifies this, game
      ensures Valid()
      ensures game.State() == AfterItemClick(HostConfig, old(game.State()), item)
      ensures announced == old(announced) + BannersFor(game.notified[|old(game.notified)|..])
    {
      var before := |game.notified|;
      game.OnItemClick(item);
      Deliver(before);
    }

    /** A firing of one of the game's live intervals, and the banner it
        leads to. */
    method FireInterval(h: nat)
      requires Valid() && h in game.intervals
      modifies this, game
      ensures Valid()
      ensures game.State() == AfterInterval(HostConfig, old(game.State()), h)
      ensures announced == old(announced) + BannersFor(game.notified[|old(game.notified)|..])
    {
      var before := |game.notified|;
      game.OnInterval(h);
      Deliver(before);
    }

    /** The banner's click listener: start() unconditionally, whether or not
        a round is running. */
    method ClickBanner()
      requires Valid()
      modifies game
      ensures Valid()
      ensures game.State() == Started(HostConfig, old(game.State()))
    {
      game.Start();
    }
  }

  // ---------------------------------------------------------------------
  // Rounds of the host's game
  // ---------------------------------------------------------------------

  /** From any stopped state of the host's game: start, then click the
      three carrots. The round is won on the third click with a score of 3,
      and the one new banner is 'YOU WON' with the win sound. */
  lemma ThreeCarrotsWin(s: Session)
    requires !s.started && s.listening
    ensures var r := Run(HostConfig, s, [ButtonClick] + Copies(ItemClick(Carrot), 3));
              && r.notified == s.notified + [Win] && r.score == 3 && !r.started
              && BannersFor(r.notified[|s.notified|..]) == [Banner(WinMessage, WinTune)]
  {
    RunFromButton(HostConfig, s, Copies(ItemClick(Carrot), 3));
    WinAfterAllCarrots(HostConfig, s);
    var r := Run(HostConfig, s, [ButtonClick] + Copies(ItemClick(Carrot), 3));
    assert r.notified[|s.notified|..] == [Win];
  }

  /** From any stopped state of the host's game: start and never click.
      After 5 firings the timer shows 0 : 0 and the round still runs; the
      6th firing loses it, clears its interval, and the one new banner is
      'YOU LOST'. */
  lemma IdleRoundLosesOnSixthFiring(s: Session)
    requires !s.started && s.listening
    ensures var h := s.nextHandle;
            var five := Run(HostConfig, s, [ButtonClick] + Copies(IntervalFire(h), 5));
            var six := Run(HostConfig, s, [ButtonClick] + Copies(IntervalFire(h), 6));
              && five.started && five.notified == s.notified && five.timerText == Some(Clock(0, 0))
              && !six.started && six.notified == s.notified + [Lose] && h !in six.intervals
              && BannersFor(six.notified[|s.notified|..]) == [Banner(LoseMessage, BugSound)]
  {
    var h := s.nextHandle;
    var ticks := Copies(IntervalFire(h), 5);
    RunFromButton(HostConfig, s, ticks);
    RunFromButton(HostConfig, s, Copies(IntervalFire(h), 6));
    assert Copies(IntervalFire(h), 6) == ticks + [IntervalFire(h)];
    TimeoutEndsOnTickAfterDuration(HostConfig, s);
    var six := Run(HostConfig, s, [ButtonClick] + Copies(IntervalFire(h), 6));
    assert six.notified[|s.notified|..] == [Lose];
  }

  /** Start, let two seconds pass, click a bug: the round is lost at that
      click, with 3 seconds still showing, and no interval stays live. */
  lemma BugClickLosesAtOnce()
    ensures var r := Run(HostConfig, Initial().(listening := true),
                         [ButtonClick, IntervalFire(1), IntervalFire(1), ItemClick(Bug)]);
              && r.notified == [Lose] && !r.started && r.intervals == map[]
              && r.timerText == Some(Clock(0, 3))
  {
  }
}
