/** A `java.util.Stack` seen as a sequence whose last element is the top. */
module SeqStack {

  /** `peek()`: the top element. */
  function Top<T>(s: seq<T>): T
    requires |s| > 0
  {
    s[|s| - 1]
  }

  /** What remains after `pop()`. */
  function Below<T>(s: seq<T>): seq<T>
    requires |s| > 0
  {
    s[..|s| - 1]
  }

  /** Two pushes put both elements on top, the second above the first. */
  lemma PushTwice<T>(s: seq<T>, x: T, y: T)
    ensures s + [x] + [y] == s + [x, y]
  {
  }

  /** Joining with the empty sequence, on either side, changes nothing. */
  lemma OntoEmpty<T>(s: seq<T>)
    ensures [] + s == s && s + [] == s
  {
  }

  /** Concatenation regroups freely. */
  lemma Regroup<T>(a: seq<T>, b: seq<T>, c: seq<T>)
    ensures a + b + c == a + (b + c)
  {
  }

  lemma JoinSmall<T>(a: T, b: T, c: T)
    ensures [a] + [b] == [a, b] && [a] + [b, c] == [a, b, c] && [a, b] + [c] == [a, b, c]
  {
  }

  /** A non-empty stack is what lies below its top, with the top pushed on it. */
  lemma BelowTop<T>(s: seq<T>)
    requires |s| > 0
    ensures s == Below(s) + [Top(s)]
  {
  }

  /** A non-empty sequence is its first element followed by the rest. */
  lemma SplitFirst<T>(s: seq<T>)
    requires |s| > 0
    ensures s == [s[0]] + s[1..]
  {
  }

  /** Number of occurrences of `x` in `s`. */
  function Count<T(==)>(x: T, s: seq<T>): nat
  {
    if |s| == 0 then 0 else Count(x, s[..|s| - 1]) + (if s[|s| - 1] == x then 1 else 0)
  }

  lemma {:induction false} CountAppend<T>(x: T, s: seq<T>, t: seq<T>)
    ensures Count(x, s + t) == Count(x, s) + Count(x, t)
    decreases |t|
  {
    if |t| == 0 {
      assert s + t == s;
    } else {
      assert (s + t)[..|s + t| - 1] == s + t[..|t| - 1];
      CountAppend(x, s, t[..|t| - 1]);
    }
  }

  /** Pushing `y` adds one occurrence exactly when `y` is `x`. */
  lemma CountPush<T>(x: T, s: seq<T>, y: T)
    ensures Count(x, s + [y]) == Count(x, s) + (if y == x then 1 else 0)
  {
    assert (s + [y])[..|s|] == s;
  }

  /** `x` occurs somewhere exactly when its count is positive. */
  lemma {:induction false} CountPositive<T>(x: T, s: seq<T>)
    ensures Count(x, s) > 0 <==> x in s
    decreases |s|
  {
    if |s| > 0 {
      CountPositive(x, s[..|s| - 1]);
      assert s == s[..|s| - 1] + [s[|s| - 1]];
    }
  }

  /** Splitting a stack at height `n` splits the count. */
  lemma CountSplit<T>(x: T, s: seq<T>, n: nat)
    requires n <= |s|
    ensures Count(x, s) == Count(x, s[..n]) + Count(x, s[n..])
  {
    assert s == s[..n] + s[n..];
    CountAppend(x, s[..n], s[n..]);
  }

  /** Two positions holding `x` make its count at least two. */
  lemma TwoOccurrences<T>(x: T, s: seq<T>, i: nat, j: nat)
    requires i < j < |s| && s[i] == x && s[j] == x
    ensures Count(x, s) >= 2
  {
    CountSplit(x, s, j);
    assert s[..j][i] == x && s[j..][0] == x;
    CountPositive(x, s[..j]);
    CountPositive(x, s[j..]);
  }
}
