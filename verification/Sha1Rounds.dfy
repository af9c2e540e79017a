/** One block of SHA-1, followed round by round from given words to given results. */
module Sha1Rounds {
  import opened Octets
  import opened Sha1

  // --------------------------------------------------------------- one round, spelled out

  /** Choice, parity and majority, and the constant of the round. */
  function Logic(t: nat, x: Word, y: Word, z: Word): Word {
    if t < 20 then (x & y) | (!x & z) else if t < 40 then x ^ y ^ z else if t < 60 then (x & y) | (x & z) | (y & z) else x ^ y ^ z
  }

  function Constant(t: nat): Word {
    if t < 20 then 0x5a82_7999 else if t < 40 then 0x6ed9_eba1 else if t < 60 then 0x8f1b_bcdc else 0xca62_c1d6
  }

  function Left1(x: Word): Word { (x << 1) | (x >> 31) }
  function Left5(x: Word): Word { (x << 5) | (x >> 27) }
  function Left30(x: Word): Word { (x << 30) | (x >> 2) }

  predicate RoundGives(t: nat, s: State, w: Word, a: Word) {
    a == Plus(Plus(Plus(Plus(Left5(s.a), Logic(t, s.b, s.c, s.d)), s.e), Constant(t)), w)
  }

  lemma LogicIsF(t: nat, x: Word, y: Word, z: Word)
    requires t < 80
    ensures K(t) == Constant(t) && F(t, x, y, z) == Logic(t, x, y, z)
  {
    if t < 20 {
      assert (x & y) ^ (!x & z) == (x & y) | (!x & z);
    } else if 40 <= t < 60 {
      assert (x & y) ^ (x & z) ^ (y & z) == (x & y) | (x & z) | (y & z);
    }
  }

  lemma Shifts(x: Word)
    ensures CircularShift(1, x) == Left1(x) && CircularShift(5, x) == Left5(x) && CircularShift(30, x) == Left30(x)
  {
  }

  lemma RoundIs(t: nat, s: State, w: Word, a: Word)
    requires t < 80 && RoundGives(t, s, w, a)
    ensures Round(s, t, w) == State(a, s.a, Left30(s.b), s.c, s.d)
  {
    hide F, K, Logic, Constant, Plus, CircularShift, Left1, Left5, Left30;
    LogicIsF(t, s.b, s.c, s.d);
    Shifts(s.a);
    Shifts(s.b);
  }

  // ------------------------------------------------------------------ sixteen words

  /** The words of the schedule for the next sixteen rounds. */
  datatype Window = Window(x0: Word, x1: Word, x2: Word, x3: Word, x4: Word, x5: Word, x6: Word, x7: Word,
                           x8: Word, x9: Word, x10: Word, x11: Word, x12: Word, x13: Word, x14: Word, x15: Word)
  {
    function Slide(n: Word): Window {
      Window(x1, x2, x3, x4, x5, x6, x7, x8, x9, x10, x11, x12, x13, x14, x15, n)
    }

    function At(i: nat): Word
      requires i < 16
    {
      if i < 8 then if i < 4 then if i < 2 then if i == 0 then x0 else x1 else if i == 2 then x2 else x3
                    else if i < 6 then if i == 4 then x4 else x5 else if i == 6 then x6 else x7
      else if i < 12 then if i < 10 then if i == 8 then x8 else x9 else if i == 10 then x10 else x11
           else if i < 14 then if i == 12 then x12 else x13 else if i == 14 then x14 else x15
    }

    lemma AtZero()
      ensures At(0) == x0
    {
    }

    lemma SlideAt(n: Word, i: nat)
      requires i < 16
      ensures Slide(n).At(i) == if i < 15 then At(i + 1) else n
    {
    }
  }

  predicate WordGives(x: Window, n: Word) {
    n == ((x.x13 ^ x.x8 ^ x.x2 ^ x.x0) << 1) | ((x.x13 ^ x.x8 ^ x.x2 ^ x.x0) >> 31)
  }

  /** The working variables before a round, and the words to come. */
  datatype Stage = Stage(v: State, x: Window)

  /** Before round `t` of a block the computation stands at stage `s`. */
  ghost predicate Reaches(block: seq<Octet>, h: State, t: nat, s: Stage) {
    && |block| == 64 && t <= 80 && Rounds(h, Schedule(block)[..t]) == s.v
    && forall i :: 0 <= i < 16 && t + i < 80 ==> W(block, t + i) == s.x.At(i)
  }

  function Advance(s: Stage, a: Word, n: Word): Stage {
    Stage(State(a, s.v.a, Left30(s.v.b), s.v.c, s.v.d), s.x.Slide(n))
  }

  lemma RoundAdvances(block: seq<Octet>, h: State, t: nat, s: Stage, a: Word, n: Word)
    requires t < 80 && Reaches(block, h, t, s) && RoundGives(t, s.v, s.x.x0, a) && WordGives(s.x, n)
    ensures Reaches(block, h, t + 1, Advance(s, a, n))
  {
    hide RoundGives, WordGives, W, Round, BlockWord, Window.At, Left30;
    var w := Schedule(block);
    assert w[..t + 1][..t] == w[..t] && w[t] == W(block, t) == s.x.At(0) == s.x.x0 by { s.x.AtZero(); }
    RoundIs(t, s.v, s.x.x0, a);
    forall i | 0 <= i < 16 && t + 1 + i < 80 ensures W(block, t + 1 + i) == Advance(s, a, n).x.At(i) {
      s.x.SlideAt(n, i);
      if i == 15 { NextWord(block, t, s.x, n); }
    }
  }

  lemma NextWord(block: seq<Octet>, t: nat, x: Window, n: Word)
    requires |block| == 64 && t < 64 && WordGives(x, n)
    requires forall i :: 0 <= i < 16 ==> W(block, t + i) == x.At(i)
    ensures W(block, t + 16) == n
  {
    hide CircularShift, Left5, Left30;
    Shifts(Mix(x.x13, x.x8, x.x2, x.x0));
    assert W(block, t + 13) == x.x13 && W(block, t + 8) == x.x8 && W(block, t + 2) == x.x2 && W(block, t) == x.x0 by {
      hide W, WordGives;
      assert x.At(13) == x.x13 && x.At(8) == x.x8 && x.At(2) == x.x2 && x.At(0) == x.x0;
    }
  }

  // --------------------------------------------------------------------- many rounds

  /** For each round the new first variable, and the word that enters the window, which is one that the schedule
      does not have from round 64 on. */
  datatype Trail = End | Next(a: Word, n: Word, rest: Trail)

  /** The trail leads from stage `s` before round `t` to stage `goal` before round `end`. */
  predicate Leads(s: Stage, t: nat, l: Trail, goal: Stage, end: nat)
    decreases l
  {
    match l
    case End => s == goal && t == end
    case Next(a, n, rest) =>
      RoundGives(t, s.v, s.x.x0, a) && WordGives(s.x, n) && Leads(Advance(s, a, n), t + 1, rest, goal, end)
  }

  lemma {:induction false} TrailGoesOn(s: Stage, t: nat, l: Trail, goal: Stage, end: nat)
    requires Leads(s, t, l, goal, end)
    ensures t <= end && (l.Next? ==> t < end)
    decreases l
  {
    hide RoundGives, WordGives, Advance;
    if l.Next? { TrailGoesOn(Advance(s, l.a, l.n), t + 1, l.rest, goal, end); }
  }

  lemma {:induction false} FollowTrail(block: seq<Octet>, h: State, t: nat, s: Stage, l: Trail, goal: Stage, end: nat)
    requires Reaches(block, h, t, s) && Leads(s, t, l, goal, end) && end <= 80
    ensures Reaches(block, h, end, goal)
    decreases l
  {
    hide Reaches, RoundGives, WordGives, Advance;
    TrailGoesOn(s, t, l, goal, end);
    if l.Next? {
      RoundAdvances(block, h, t, s, l.a, l.n);
      FollowTrail(block, h, t + 1, Advance(s, l.a, l.n), l.rest, goal, end);
    }
  }

  /** The block of words `x`. */
  predicate Holds(block: seq<Octet>, x: Window) {
    |block| == 64 && forall i :: 0 <= i < 16 ==> BlockWord(block, i) == x.At(i)
  }

  /** A block whose words are those of the window stands at the first stage. */
  lemma FirstStage(block: seq<Octet>, h: State, x: Window)
    requires Holds(block, x)
    ensures Reaches(block, h, 0, Stage(h, x))
  {
    assert Schedule(block)[..0] == [];
  }

  lemma LastStage(block: seq<Octet>, h: State, s: Stage)
    requires Reaches(block, h, 80, s)
    ensures Compress(h, block) == Add(h, s.v)
  {
    assert Schedule(block)[..80] == Schedule(block);
  }
}
