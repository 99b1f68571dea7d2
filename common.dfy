/** Shared vocabulary of both game controllers: the item kinds, the text
    "minutes : seconds" shown by the countdown, and the browser's interval
    timers (setInterval / clearInterval), modelled as a table of live
    handles, each with the countdown its callback has captured. */
module Common {

  datatype Option<T> = None | Some(value: T)

  /** What can be clicked on the field. */
  datatype ItemKind = Carrot | Bug

  /** The two numbers of the timer text `${minutes} : ${seconds}`. */
  datatype Clock = Clock(minutes: int, seconds: int)

  /** JavaScript's `a % 60`, the only remainder the game takes: `%`
      truncates toward zero, so the remainder takes the sign of the
      dividend (unlike Dafny's Euclidean `%`). The three clauses together
      fix the result. */
  function JsRem60(a: int): (r: int)
    ensures a >= 0 ==> 0 <= r < 60
    ensures a < 0 ==> -60 < r <= 0
    ensures (a - r) % 60 == 0
  {
    if a >= 0 then a % 60 else -((-a) % 60)
  }

  /** updateTimerText: minutes = Math.floor(time / 60), seconds = time % 60.
      For a divisor of 60, Dafny's `/` is the floor. For a time that is not
      negative the two numbers split it exactly into minutes and seconds. */
  function TimerText(time: int): (c: Clock)
    ensures time >= 0 ==> c.minutes >= 0 && 0 <= c.seconds < 60 && c.minutes * 60 + c.seconds == time
    ensures time < 0 ==> c.minutes < 0 && -60 < c.seconds <= 0
    ensures time < 0 ==> c.minutes * 60 + c.seconds == if c.seconds == 0 then time else time - 60
  {
    Clock(time / 60, JsRem60(time))
  }

  /** clearInterval(handle): the interval `handle` names stops firing; an
      undefined handle, or one already cleared, changes nothing. */
  function ClearInterval(live: map<nat, int>, handle: Option<nat>): (r: map<nat, int>)
    ensures handle.Some? ==> handle.value !in r
    ensures forall h :: h in r <==> h in live && handle != Some(h)
    ensures forall h :: h in r ==> r[h] == live[h]
  {
    if handle.Some? then live - {handle.value} else live
  }

  /** `n` copies of `x`, in a row. */
  function Copies<T>(x: T, n: nat): (r: seq<T>)
    ensures |r| == n
    ensures forall i :: 0 <= i < n ==> r[i] == x
  {
    if n == 0 then [] else Copies(x, n - 1) + [x]
  }
}
