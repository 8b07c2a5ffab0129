/**
 * How `print_nicely` shows the rcon password and the licence key: a secret
 * shorter than 8 characters becomes all stars; a longer one keeps its last
 * 4 characters behind a star for every other character.
 * Characters stand for bytes: the secrets are taken to be ASCII.
 */
module Masking {

  function Stars(n: nat): (r: string)
    ensures |r| == n && forall i :: 0 <= i < n ==> r[i] == '*'
  {
    seq(n, _ => '*')
  }

  /** The masked form of a secret. */
  function Masked(secret: string): string
  {
    if |secret| < 8 then Stars(|secret|)
    else Stars(|secret| - 4) + secret[|secret| - 4..]
  }

  /** The two star-pushing loops of `print_nicely` (used alike for the rcon
      password and the licence key). */
  method MaskSecret(secret: string) returns (masked: string)
    ensures masked == Masked(secret)
    ensures |masked| == |secret|
    ensures |secret| < 8 ==> forall i :: 0 <= i < |masked| ==> masked[i] == '*'
    ensures |secret| >= 8 ==> (forall i :: 0 <= i < |secret| - 4 ==> masked[i] == '*')
                              && masked[|secret| - 4..] == secret[|secret| - 4..]
  {
    masked := "";
    var stars := if |secret| < 8 then |secret| else |secret| - 4;
    for i := 0 to stars
      invariant masked == Stars(i)
    {
      masked := masked + "*";
    }
    if |secret| >= 8 {
      masked := masked + secret[|secret| - 4..];
    }
  }

  /** Two secrets look the same once masked exactly when they have the same
      length and, from 8 characters on, the same last 4 characters: nothing
      else about a secret shows. */
  lemma {:induction false} MaskShowsOnlyLengthAndTail(a: string, b: string)
    ensures Masked(a) == Masked(b) <==>
            |a| == |b| && (|a| < 8 || a[|a| - 4..] == b[|b| - 4..])
  {
    if Masked(a) == Masked(b) {
      assert |Masked(a)| == |a| && |Masked(b)| == |b|;
      if |a| >= 8 {
        assert Masked(a)[|a| - 4..] == a[|a| - 4..];
        assert Masked(b)[|b| - 4..] == b[|b| - 4..];
      }
    }
  }
}
