/** `normalise_angle`: bring an angle in degrees into [0, 360] by whole turns. */
module Angles {

  /** The first loop: subtract 360 while the angle exceeds 360. */
  function TurnDown(d: real): (r: real)
    ensures r <= 360.0
    ensures d <= 360.0 ==> r == d
    ensures d > 360.0 ==> r > 0.0
    decreases if d > 360.0 then d.Floor else 0
  {
    if d > 360.0 then TurnDown(d - 360.0) else d
  }

  /** The second loop: add 360 while the angle is negative. */
  function TurnUp(d: real): (r: real)
    ensures r >= 0.0
    ensures d >= 0.0 ==> r == d
    ensures d < 0.0 ==> r < 360.0
    decreases if d < 0.0 then (-d).Floor + 1 else 0
  {
    if d < 0.0 then TurnUp(d + 360.0) else d
  }

  /** `normalise_angle`. An angle of exactly 360 is left as 360, not folded to 0. */
  function Normalise(degrees: real): (r: real)
    ensures 0.0 <= r <= 360.0
    ensures 0.0 <= degrees <= 360.0 ==> r == degrees
  {
    TurnUp(TurnDown(degrees))
  }

  /** Normalising twice is normalising once. */
  lemma NormaliseIdempotent(degrees: real)
    ensures Normalise(Normalise(degrees)) == Normalise(degrees)
  {
  }

  /** `normalise_angle` only ever adds or removes whole turns. */
  lemma {:induction false} NormaliseWholeTurns(degrees: real) returns (turns: int)
    ensures Normalise(degrees) == degrees + 360.0 * turns as real
  {
    var down := TurnDownCount(degrees);
    var up := TurnUpCount(TurnDown(degrees));
    turns := up as int - down as int;
  }

  lemma {:induction false} TurnDownCount(d: real) returns (n: nat)
    ensures TurnDown(d) == d - 360.0 * n as real
    decreases if d > 360.0 then d.Floor else 0
  {
    if d > 360.0 {
      var m := TurnDownCount(d - 360.0);
      n := m + 1;
    } else {
      n := 0;
    }
  }

  lemma {:induction false} TurnUpCount(d: real) returns (n: nat)
    ensures TurnUp(d) == d + 360.0 * n as real
    decreases if d < 0.0 then (-d).Floor + 1 else 0
  {
    if d < 0.0 {
      var m := TurnUpCount(d + 360.0);
      n := m + 1;
    } else {
      n := 0;
    }
  }
}
