# Carrot/bug clicker: the game-session controller

A browser minigame. The player presses play, then clicks carrots before a
countdown runs out. Clicking every carrot wins the round. Clicking a bug
loses it. The countdown reaching zero with carrots left also loses it.
The play button doubles as a stop button that cancels the round.

This project models the controller behind that lifecycle, in three parts:

- `CarrotGame` (`game.dfy`) models `src/game.js`. The `Game` class keeps the
  same fields as the JavaScript object: `started`, `score`, the timer
  handle, the texts it writes, and the registered stop listener. Every
  method is proved to change the state exactly as a pure transition
  function says (`Started`, `Stopped`, `AfterItemClick`, `AfterInterval`,
  `AfterButton`). Lemmas about those functions state what the game
  guarantees over whole runs of events. `GameBuilder` is the chained
  configuration builder.
- `Host` (`host.dfy`) models `src/main.js`. It builds the game with
  duration 5, 3 carrots and 3 bugs and registers the stop listener. The
  listener maps each stop reason to a banner message and a sound. A click
  on the banner restarts the game.
- `LegacyGame` (`legacy.dfy`) models `main_default.js`, the older
  single-file version. Its module-level variables become the fields of
  the `Legacy` class. The field is a sequence of items that `initGame` and
  `addItem` fill and carrot clicks shrink.
- `Common` (`common.dfy`) holds what both controllers share: the
  `minutes : seconds` arithmetic and the browser's interval timers.

Modelling choices:

- Interval timers are a table `intervals` mapping each live handle to the
  `remainingTimeSec` its callback captured. `timer` is the handle last
  stored, and `nextHandle` the next one `setInterval` returns. A firing
  of a live interval is an explicit event (`OnInterval(h)`). No wall-clock
  time is modelled.
- The table keeps the source's timer leak visible. `start()` on a running
  game does not clear the old interval, and `stop()` can only clear the
  newest one. The banner and the legacy refresh button both call start
  unconditionally. `RestartWhileRunningLeaks` and
  `LeakedIntervalRepeatsStop` show the consequence: a leaked interval
  whose countdown has run out calls `stop()` again on every firing.
- The game calls its stop listener synchronously inside `stop()`. Here the
  game appends the reason to `notified`, but only when a listener is
  registered. The host's entry points (`PressGameButton`, `ClickItem`,
  `FireInterval`) then hand each new reason to `OnGameStop`.
- The score and timer elements are modelled as the last values the game
  wrote to them. They are `None` before the first write.
- The code does the following, and the model keeps it:
  - A round nobody plays ends on firing `gameDuration + 1` (the 6th with
    the host's settings). The first `gameDuration` firings show
    `gameDuration - 1` down to 0, because the callback checks for time
    left before it counts down.
  - `stop()` has no guard against a second call.
  - Calling `start()` on a running game leaks its timer.

## Model

| member | source | states |
|---|---|---|
| `Common.TimerText` | src/game.js:146-150 | For a time that is not negative, `minutes*60 + seconds == time` and `0 <= seconds < 60`. For a negative time, the floored minutes and the truncated seconds give `minutes < 0` and `-60 < seconds <= 0`, and the two no longer add up: `minutes*60 + seconds` is `time - 60` unless the seconds are 0 (-61 shows `-2 : -1`). main_default.js:127-131 is the same arithmetic. |
| `Common.JsRem60` | src/game.js:148 | JavaScript's truncating `time % 60`: the remainder has the sign of the dividend, is smaller than 60 in size, and differs from the dividend by a multiple of 60, which fixes it. |
| `Common.ClearInterval` | src/game.js:141-143 | After `clearInterval(handle)`, that handle is no longer live, and every other live interval keeps its countdown. An undefined handle changes nothing. |
| `CarrotGame.Tag` | src/game.js:4-8 | Each member of the frozen `Reason` object holds one of the strings 'win', 'lose', 'cancel'. |
| `CarrotGame.TagsDistinct` | src/game.js:4-8 | Different reasons hold different strings, so the listener's `switch` can tell them apart. |
| `CarrotGame.Stopped` | src/game.js:78-85 | `stop(reason)` always leaves the game not started and clears the current timer. It notifies the listener exactly once with `reason` when a listener is registered, and not at all otherwise. Score, texts and other intervals do not change. |
| `CarrotGame.Started` | src/game.js:68-76 | `start()` always sets score 0 and started, and the scoreboard shows `carrotCount`. A new current interval counts down from `gameDuration`, and the timer text shows `gameDuration`. Intervals already live stay live. Nobody is notified. |
| `CarrotGame.AfterItemClick` | src/game.js:87-100 | A click while not started changes nothing. A carrot raises the score by exactly 1 and the scoreboard shows `carrotCount - score`; the timer handle, the timer text and the listener are unchanged. The round stops iff the score reaches `carrotCount`, notifying a registered listener with exactly one Win; then only the current timer is cleared, and every other interval keeps its countdown. A bug is `stop(Lose)` whatever the score or time left. |
| `CarrotGame.AfterInterval` | src/game.js:131-137 | A firing with time left decreases that interval's countdown by exactly 1 and shows it, and changes nothing else. A firing with none left clears the current timer and stops, with Win iff `carrotCount == score` and otherwise Lose. |
| `CarrotGame.AfterButton` | src/game.js:48-54 | The button on a started round is exactly `stop(Cancel)`: the listener, when one is registered, gets exactly one Cancel and never Win or Lose, and with none registered nobody is notified. Otherwise it is exactly `start()`, a round with score 0. |
| `CarrotGame.InitialIsSound` | src/game.js:59-61 | A newly built game, with or without a listener, satisfies the sound invariant: not started, no live interval. |
| `CarrotGame.RunFromButton` | src/game.js:48-54 | A button press on a stopped game is `start()`, and the rest of a run goes on from the started state. |
| `CarrotGame.StoppedKeepsInv` | src/game.js:78-85 | From any state whose score and countdowns are in range, `stop(reason)` reaches the reachable-state invariant: the game is not started and its current timer is no longer live. |
| `CarrotGame.ItemClickKeepsInv` | src/game.js:87-100 | An item click keeps the reachable-state invariant: with at least one carrot, a carrot never takes the score past `carrotCount`, and the click that reaches it ends the round. With no carrot configured the score bound is not part of the invariant, since a carrot click still raises the score. |
| `CarrotGame.IntervalKeepsInv` | src/game.js:131-137 | A firing keeps the reachable-state invariant: a countdown goes down only to 0, and one that has run out ends the round. |
| `CarrotGame.ApplyKeepsInv` | src/game.js:48-138 | Every event keeps the reachable-state invariant. The score is never negative and, with at least one carrot, never above `carrotCount` (a started game is then short of it). The game is started exactly when its current timer is live. A started game shows the carrots left. Countdowns are at most `gameDuration` and at least 0, except that a negative `gameDuration` is kept as given until the first firing stops the round. |
| `CarrotGame.RunKeepsInv` | src/game.js:48-138 | Any run of events (buttons, clicks, firings, direct starts) keeps that invariant. |
| `CarrotGame.ScoreNeverExceedsCarrotCount` | src/game.js:91-96 | For a game with at least one carrot, from a new game, after any run of events, `0 <= score <= carrotCount`, and `score < carrotCount` while started. The restriction is needed because the field is not modelled: with no carrot configured, a carrot click can still arrive and the score passes `carrotCount`. |
| `CarrotGame.ApplyKeepsSound` | src/game.js:48-143 | Every event except a direct `start()` keeps the game leak-free. Only the current timer is live, and a started game shows its own countdown. |
| `CarrotGame.RunWithoutRestartKeepsSound` | src/game.js:128-143 | Any run that uses only the button, item clicks and firings stays leak-free. |
| `CarrotGame.SoundHasAtMostOneTimer` | src/game.js:78-85 | A leak-free game has at most one live interval, and none once the round has ended. Every way out of a round cancels its timer. |
| `CarrotGame.RestartWhileRunningLeaks` | src/game.js:128-131 | `start()` on a running game leaves the old interval live with its countdown. After a cancel, an interval still runs, and the game is no longer leak-free. |
| `CarrotGame.StopTwiceNotifiesTwice` | src/game.js:78-85 | Stopping an already stopped game notifies the listener a second time. |
| `CarrotGame.LeakedIntervalRepeatsStop` | src/game.js:131-135 | A leaked interval whose countdown has run out calls `stop` on each of `n` firings. The listener receives `n` more identical reasons, and the interval stays live. |
| `CarrotGame.Countdown` | src/game.js:131-137 | The first `k` firings of the current timer, with at least `k` seconds left, only count it down by `k` and show the new time: the new state is the old one with just that countdown and the timer text changed. The game stays started with its score, scoreboard, handles and notifications unchanged. |
| `CarrotGame.TimeoutEndsOnTickAfterDuration` | src/game.js:128-138 | After `start()` and `gameDuration` firings, the round still runs with the timer at `0 : 0`. Firing `gameDuration + 1` stops it and clears the timer. A registered listener gets exactly one notification, Win iff `carrotCount == 0` and else Lose; with none registered nobody is notified. |
| `CarrotGame.CarrotClicks` | src/game.js:91-93 | `k` carrot clicks that do not reach `carrotCount` raise the score by exactly `k`. Nothing else changes except the scoreboard. |
| `CarrotGame.WinAfterAllCarrots` | src/game.js:91-96 | After `start()`, `carrotCount - 1` carrot clicks leave the round running. Click `carrotCount` ends it with score `carrotCount` and its timer cleared. A registered listener gets exactly one Win; with none registered nobody is notified. |
| `CarrotGame.Game.constructor` | src/game.js:39-62 | A new game keeps its three settings and is not started, with score 0, no timer and no listener. |
| `CarrotGame.Game.SetGameStopListener` | src/game.js:64-66 | Registers the listener and changes nothing else. |
| `CarrotGame.Game.Start` | src/game.js:68-76 | The new state is `Started` of the old one. |
| `CarrotGame.Game.Stop` | src/game.js:78-85 | The new state is `Stopped` of the old one. |
| `CarrotGame.Game.OnItemClick` | src/game.js:87-100 | The new state is `AfterItemClick` of the old one. |
| `CarrotGame.Game.OnButtonClick` | src/game.js:48-54 | The new state is `AfterButton` of the old one. |
| `CarrotGame.Game.StartGameTimer` | src/game.js:128-131 | Shows `gameDuration` and sets a new interval with that countdown as the current timer. Nothing else changes. |
| `CarrotGame.Game.OnInterval` | src/game.js:131-137 | The new state is `AfterInterval` of the old one, for the interval that fired. |
| `CarrotGame.Game.StopGameTimer` | src/game.js:141-143 | Clears the current timer and changes nothing else. |
| `CarrotGame.Game.UpdateTimerText` | src/game.js:146-150 | The timer text becomes `TimerText(time)`. Nothing else changes. |
| `CarrotGame.Game.InitGame` | src/game.js:153-156 | The scoreboard shows `carrotCount`. Nothing else changes. |
| `CarrotGame.Game.UpdateScoreboard` | src/game.js:159-161 | The scoreboard shows `carrotCount - score`. Nothing else changes. |
| `CarrotGame.GameBuilder.constructor` | src/game.js:12 | A new builder has no setting. |
| `CarrotGame.GameBuilder.WithgameDuration` | src/game.js:13-16 | Records the duration, keeps the other settings, and returns the same builder. |
| `CarrotGame.GameBuilder.WithCarrotCount` | src/game.js:18-21 | Records the carrot count, keeps the other settings, and returns the same builder. |
| `CarrotGame.GameBuilder.WithBugCount` | src/game.js:23-26 | Records the bug count, keeps the other settings, and returns the same builder. |
| `CarrotGame.GameBuilder.Build` | src/game.js:28-35 | Returns a new game with exactly the recorded settings, in its initial state. |
| `Host.StopBanner` | src/main.js:20-35 | 'cancel' maps to 'Go For It Again? ☝🏼' with the alert sound. 'win' maps to 'YOU WON 👍🏼' with the win sound. 'lose' maps to 'YOU LOST 👎🏼' with the bug sound. The result is a banner iff the value is one of the three reasons; any other value is the error 'not valid reason'. |
| `Host.BannerFor` | src/main.js:17-36 | Every reason the game reports gets a banner: the default branch is never reached from the game. |
| `Host.BannersTellReasonsApart` | src/main.js:20-32 | Two different reasons get different messages and different sounds. |
| `Host.Host.constructor` | src/main.js:11-17 | The host's game is built with duration 5, 3 carrots and 3 bugs. It is not started, its listener is registered, and no banner has been shown. |
| `Host.Host.OnGameStop` | src/main.js:17-37 | For a valid reason, the banner is shown exactly once with the mapped message and sound. For any other reason the listener throws and nothing is shown. |
| `Host.Host.Deliver` | src/game.js:84 | The listener receives, in order, each reason the game reported during the event. |
| `Host.Host.PressGameButton` | src/game.js:48-54 | The game moves by `AfterButton`, and a banner is shown for a cancel. |
| `Host.Host.ClickItem` | src/game.js:87-100 | The game moves by `AfterItemClick`, and a banner is shown for the win or loss it causes. |
| `Host.Host.FireInterval` | src/game.js:131-137 | The game moves by `AfterInterval`, and a banner is shown for the timeout it causes. |
| `Host.Host.ClickBanner` | src/main.js:6-8 | Clicking the banner calls `start()` unconditionally, running or not. |
| `Host.ThreeCarrotsWin` | src/main.js:11-15 | With the host's settings, from any stopped state (the host's game as built is one), start plus three carrot clicks gives exactly one new Win, score 3, and the one new banner 'YOU WON 👍🏼' with the win sound. |
| `Host.IdleRoundLosesOnSixthFiring` | src/main.js:11-15 | With the host's settings, from any stopped state and with no clicks, the round still runs after 5 firings, showing `0 : 0`. The 6th firing gives exactly one new Lose, clears the round's interval, and shows the one new banner 'YOU LOST 👎🏼'. |
| `Host.BugClickLosesAtOnce` | src/game.js:97-98 | A bug clicked after two firings gives exactly one Lose at once, with `0 : 3` still showing and no live interval. |
| `LegacyGame.Removed` | main_default.js:169 | `target.remove()` takes exactly the clicked item out of the field: one item fewer, the items before and after it in order, and the same multiset of items apart from the removed one. |
| `LegacyGame.CountRemoved` | main_default.js:168-170 | Removing a clicked item takes exactly one from the count of its kind and leaves the other kind's count unchanged. |
| `LegacyGame.InitialFieldCounts` | main_default.js:143-148 | The laid-out field has 10 items: exactly `CARROT_COUNT` (5) carrots and 5 bugs. |
| `LegacyGame.GameStarted` | main_default.js:48-56 | `startGame()` gives score 0, started, the scoreboard at 5, and a fresh field of 10 items with exactly 5 carrots and 5 bugs. A new current interval counts down from 5 and the timer shows 5; live intervals are kept. The pop-up is untouched. |
| `LegacyGame.GameEnded` | main_default.js:59-81 | `stopGame()` and `finishGame()` leave the game not started, clear the current timer and no other interval, and show the pop-up with the given text. Score, field and texts are unchanged. |
| `LegacyGame.FieldClicked` | main_default.js:163-180 | A click while not started, or on no item, changes nothing. A carrot is removed from the field, the score rises by exactly 1, and the scoreboard shows `CARROT_COUNT - score`; the timer handle and timer text are unchanged. The round ends with 'YOU WON 👍🏼' iff the score reaches 5, clearing only the current timer and keeping every other interval's countdown; otherwise the intervals and pop-up are untouched. A bug ends the round with 'YOU LOST 👎🏼'. |
| `LegacyGame.FieldClickKeepsConsistent` | main_default.js:163-180 | A field click keeps the invariant: score plus carrots left on the field stays exactly 5 while a round runs, so the score never exceeds the carrots placed. |
| `LegacyGame.GameEndedKeepsConsistent` | main_default.js:59-81 | From any state whose score, field and countdowns are in range, `stopGame()` and `finishGame()` reach the invariant: not started and the current timer no longer live. |
| `LegacyGame.Legacy.constructor` | main_default.js:25-27 | At page load: not started, score 0, no timer, and the invariant holds. The field is assumed empty and the pop-up hidden, since the page's markup is not part of this model; this is harmless, as clicks are ignored until `startGame` lays out a new field. |
| `LegacyGame.Legacy.OnGameButtonClick` | main_default.js:33-39 | Stops with 'REPLAY☝🏼' if started, else starts. The invariant is kept. |
| `LegacyGame.Legacy.OnRefreshClick` | main_default.js:42-45 | Starts whether or not a round runs, then hides the pop-up. The invariant is kept. |
| `LegacyGame.Legacy.StartGame` | main_default.js:48-56 | Score 0, started, a fresh field of 5 carrots and 5 bugs, the scoreboard at 5, and a new interval from 5 seconds. Live intervals are not cleared. The invariant is kept. |
| `LegacyGame.Legacy.StopGame` | main_default.js:59-67 | Not started, the current timer cleared, and the pop-up shows 'REPLAY☝🏼'. Nothing else changes. |
| `LegacyGame.Legacy.FinishGame` | main_default.js:70-81 | Not started and the current timer cleared. The pop-up shows 'YOU WON 👍🏼' iff `win`, else 'YOU LOST 👎🏼'. Nothing else changes. |
| `LegacyGame.Legacy.StartGameTimer` | main_default.js:109-112 | Shows 5 seconds and sets a new interval with that countdown as the current timer. Nothing else changes. |
| `LegacyGame.Legacy.OnInterval` | main_default.js:112-118 | With time left, the interval counts down by exactly 1 and the time is shown. Otherwise the current timer is cleared and the game finishes, won iff `CARROT_COUNT == score`. The invariant is kept. |
| `LegacyGame.Legacy.StopGameTimer` | main_default.js:122-124 | Clears the current timer and changes nothing else. |
| `LegacyGame.Legacy.UpdateTimerText` | main_default.js:127-131 | The timer text becomes `TimerText(time)`. Nothing else changes. |
| `LegacyGame.Legacy.ShowPopUpWithText` | main_default.js:133-136 | The pop-up is shown with the text. Nothing else changes. |
| `LegacyGame.Legacy.HidePopUp` | main_default.js:138-140 | The pop-up is hidden. Nothing else changes. |
| `LegacyGame.Legacy.InitGame` | main_default.js:143-148 | The field is emptied, then holds exactly 5 carrots followed by 5 bugs, and the scoreboard shows 5. |
| `LegacyGame.Legacy.AddItem` | main_default.js:194-210 | Appends exactly `count` items of the kind to the field. Nothing else changes. |
| `LegacyGame.Legacy.OnFieldClick` | main_default.js:163-180 | The new state is `FieldClicked` of the old one, and the invariant is kept. |
| `LegacyGame.Legacy.UpdateScoreboard` | main_default.js:183-185 | The scoreboard shows `CARROT_COUNT - score`. Nothing else changes. |

## Left out

- DOM presentation is not modelled: the play/stop icon swap (`showStopButton`, `showPlayButton`), `showTimerandScore` and the unused `hideGameButton`. Only the numbers written to the timer and score elements are kept.
- Audio is not modelled: background music, the carrot sound and the sounds of `finishGame`. The exception is the sound the host's stop listener picks, which is kept as a tag.
- Item placement is not modelled: `randomNumber`, the x/y pixel positions in `addItem`, and the size constants `CARROT_SIZE` and `BUG_SIZE`. These are floating-point `Math.random` values.
- `Field`, `PopUp` and the sound module (field.js, popup.js, sound.js) are not part of this model. In `src/game.js` the field's contents and its `init()` are therefore not modelled: a click arrives as an item kind. In the host, the banner is a log of what it was shown with; whether the pop-up hides itself on click is not modelled.
- Real time and the browser's scheduling are not modelled. Which live interval fires, and when, is a parameter.
- JavaScript numbers are modelled as unbounded integers. The settings are never fractional or `NaN` here.
- CarrotGame.GameBuilder.Build: requires all three settings to be recorded. The source builds a game with `undefined` settings otherwise, whose `NaN` arithmetic is not modelled.
- CarrotGame.Game.OnItemClick: takes only the two item kinds. The source's fall-through for any other value is a no-op; the model assumes the field reports only carrots and bugs, since `Field` is not part of this model.
