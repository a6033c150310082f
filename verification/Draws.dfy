/**
 Randomness as the engine sees it. A seeded generator is an arbitrary stream of uniform draws addressed by a
 position; the seed derivations are arbitrary functions of their inputs. Everything proved holds for every choice.
 */
module Draws {
  import opened Ids

  predicate IsPermutation(s: seq<nat>, n: nat) {
    && |s| == n
    && (forall i | 0 <= i < n :: s[i] < n)
    && (forall i, j | 0 <= i < j < n :: s[i] != s[j])
  }

  /**
   `draw(p)` is the value of Float64 at position p, `perm(p, n)` that of Perm(n), `afterPerm(p, n)` where it stops.
   */
  datatype Tape = Tape(draw: nat -> real, perm: (nat, nat) -> seq<nat>, afterPerm: (nat, nat) -> nat)
  {
    ghost predicate Valid() {
      && (forall p: nat :: 0.0 <= draw(p) < 1.0)
      && (forall p: nat, n: nat :: IsPermutation(perm(p, n), n))
    }
  }

  ghost function ZeroTape(): (tape: Tape)
    ensures tape.Valid()
  {
    var tape := Tape((p: nat) => 0.0, (p: nat, n: nat) => seq(n, i => i), (p: nat, n: nat) => p);
    assert forall p: nat, n: nat :: IsPermutation(tape.perm(p, n), n) by {
      forall p: nat, n: nat
        ensures IsPermutation(tape.perm(p, n), n)
      {
        assert tape.perm(p, n) == seq(n, i => i);
      }
    }
    tape
  }

  /** Draws lie in [0, 1) and permutations are permutations; nothing else is known of a stream. */
  type Stream = tape: Tape | tape.Valid() ghost witness ZeroTape()

  /** What an event seed is derived from: the sampled state of a trial, a path by its ID, or a path by its content. */
  datatype Subject = StateLabel | PathLabel(pathID: string) | ContentLabel(services: seq<Id>, edgeIDs: seq<Id>)

  datatype Entropy = Entropy(
    source: int -> Stream,
    profileSeed: (int, string, int) -> int,
    eventSeed: (int, nat, Subject) -> int)
  {
    function EventStream(seed: int, trial: nat, subject: Subject): Stream {
      source(eventSeed(seed, trial, subject))
    }
  }

  /** A generator: a stream and the position of the next draw. */
  class Rng {
    const stream: Stream
    var pos: nat

    constructor (stream: Stream)
      ensures this.stream == stream && pos == 0
    {
      this.stream := stream;
      pos := 0;
    }

    method Float64() returns (x: real)
      modifies this
      ensures x == stream.draw(old(pos)) && pos == old(pos) + 1
    {
      x := stream.draw(pos);
      pos := pos + 1;
    }

    method Perm(n: nat) returns (indices: seq<nat>)
      modifies this
      ensures indices == stream.perm(old(pos), n) && pos == stream.afterPerm(old(pos), n)
    {
      indices := stream.perm(pos, n);
      pos := stream.afterPerm(pos, n);
    }
  }
}
