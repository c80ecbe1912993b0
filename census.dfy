/** Counting how many participants are at a given point of their program.

    Every variant keeps one program counter per reader and per writer in a
    sequence; the shared counters of the C programs (`reader_count`,
    `writer_count`, the completion counters) are then related to how many
    entries of those sequences hold a given phase. */
module Census {

  /** Number of positions of `s` that hold `x`. */
  function Count<T(==)>(s: seq<T>, x: T): (n: nat)
    ensures n <= |s|
  {
    if s == [] then 0 else (if s[0] == x then 1 else 0) + Count(s[1..], x)
  }

  /** Overwriting one position moves one unit from the old value's count to the new one's. */
  lemma {:induction false} CountUpdate<T>(s: seq<T>, i: nat, v: T, x: T)
    requires i < |s|
    ensures Count(s[i := v], x) == Count(s, x) - (if s[i] == x then 1 else 0) + (if v == x then 1 else 0)
  {
    if i == 0 {
      assert s[i := v][1..] == s[1..];
    } else {
      assert s[i := v][1..] == s[1..][i - 1 := v];
      CountUpdate(s[1..], i - 1, v, x);
    }
  }

  /** `CountUpdate` for every value at once. */
  lemma CountAfterUpdate<T>(s: seq<T>, i: nat, v: T)
    requires i < |s|
    ensures forall x :: Count(s[i := v], x) == Count(s, x) - (if s[i] == x then 1 else 0) + (if v == x then 1 else 0)
  {
    forall x {
      CountUpdate(s, i, v, x);
    }
  }

  /** A value that occurs somewhere is counted at least once. */
  lemma {:induction false} CountPositive<T>(s: seq<T>, i: nat, x: T)
    requires i < |s| && s[i] == x
    ensures Count(s, x) >= 1
  {
    if i > 0 {
      CountPositive(s[1..], i - 1, x);
    }
  }

  /** A value that occurs at two different positions is counted at least twice. */
  lemma {:induction false} CountTwo<T>(s: seq<T>, i: nat, j: nat, x: T)
    requires i < |s| && j < |s| && i != j
    requires s[i] == x && s[j] == x
    ensures Count(s, x) >= 2
  {
    if i == 0 {
      CountPositive(s[1..], j - 1, x);
    } else if j == 0 {
      CountPositive(s[1..], i - 1, x);
    } else {
      CountTwo(s[1..], i - 1, j - 1, x);
    }
  }

  /** A value that occurs nowhere has count zero. */
  lemma {:induction false} CountAbsent<T>(s: seq<T>, x: T)
    requires forall i :: 0 <= i < |s| ==> s[i] != x
    ensures Count(s, x) == 0
  {
    if s != [] {
      assert s[0] != x;
      CountAbsent(s[1..], x);
    }
  }

  /** A sequence made only of `x` counts every position. */
  lemma {:induction false} CountUniform<T>(s: seq<T>, x: T)
    requires forall i :: 0 <= i < |s| ==> s[i] == x
    ensures Count(s, x) == |s|
  {
    if s != [] {
      CountUniform(s[1..], x);
    }
  }

  /** When one of two phases is empty, no reader-side position and writer-side
      position are in those phases at the same time. */
  lemma Exclusive<R, W>(rs: seq<R>, r: R, ws: seq<W>, w: W)
    requires Count(rs, r) == 0 || Count(ws, w) == 0
    ensures forall i, j :: 0 <= i < |rs| && 0 <= j < |ws| ==> !(rs[i] == r && ws[j] == w)
  {
    forall i, j | 0 <= i < |rs| && 0 <= j < |ws|
      ensures !(rs[i] == r && ws[j] == w)
    {
      if rs[i] == r && ws[j] == w {
        CountPositive(rs, i, r);
        CountPositive(ws, j, w);
      }
    }
  }

  /** A value counted at most once occurs at no more than one position. */
  lemma AtMostOne<T>(s: seq<T>, x: T)
    requires Count(s, x) <= 1
    ensures forall j, k :: 0 <= j < |s| && 0 <= k < |s| && s[j] == x && s[k] == x ==> j == k
  {
    forall j, k | 0 <= j < |s| && 0 <= k < |s| && s[j] == x && s[k] == x
      ensures j == k
    {
      if j != k {
        CountTwo(s, j, k, x);
      }
    }
  }
}
