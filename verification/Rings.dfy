/** The growing rings of the task pool and the channels, and the sequences they hold. */
module Rings {
  import opened Common

  /** Where the `i`-th of `n` items lies in a ring: positions closer together than its
      capacity do not collide. */
  lemma {:induction false} ModDistinct(i: nat, j: nat, cap: nat)
    requires i < j < i + cap
    ensures i % cap != j % cap
  {
    if i % cap == j % cap {
      var q, r := j / cap, i / cap;
      assert j - i == cap * q - cap * r == cap * (q - r) by {
        MulSub(cap, q, r);
      }
      if q - r <= 0 {
        MulNonPositive(cap, q - r);
      } else {
        MulAtLeast(cap, q - r);
      }
    }
  }

  lemma MulSub(a: int, b: int, c: int)
    ensures a * b - a * c == a * (b - c)
  {
  }

  lemma MulNonPositive(a: int, b: int)
    requires a >= 0 && b <= 0
    ensures a * b <= 0
  {
  }

  lemma MulAtLeast(a: int, b: int)
    requires a >= 0 && b >= 1
    ensures a * b >= a
  {
  }

  /** The live entries of a ring, from position `from` up to `to`. */
  function Window<T>(buf: seq<T>, from: nat, to: nat): (r: seq<T>)
    requires from <= to && (|buf| > 0 || from == to)
    ensures |r| == to - from
  {
    seq(to - from, k requires 0 <= k < to - from => buf[(from + k) % |buf|])
  }

  lemma WindowAt<T>(buf: seq<T>, from: nat, to: nat, k: nat)
    requires from <= to && |buf| > 0 && k < to - from
    ensures Window(buf, from, to)[k] == buf[(from + k) % |buf|]
  {
  }

  /** A sequence laid out at the front of a ring. */
  lemma WindowFront<T>(buf: seq<T>, s: seq<T>)
    requires |s| < |buf| && forall k :: 0 <= k < |s| ==> buf[k] == s[k]
    ensures Window(buf, 0, |s|) == s
  {
    forall k | 0 <= k < |s|
      ensures Window(buf, 0, |s|)[k] == s[k]
    {
      Small(k, |buf|);
    }
  }

  lemma Small(k: nat, n: nat)
    requires k < n
    ensures k % n == k
  {
  }

  /** Writing past the end of a window that is not full appends to it. */
  lemma WindowPush<T>(buf: seq<T>, from: nat, to: nat, x: T)
    requires from <= to < from + |buf|
    ensures Window(buf[to % |buf| := x], from, to + 1) == Window(buf, from, to) + [x]
  {
    var buf' := buf[to % |buf| := x];
    forall k | 0 <= k < to - from
      ensures Window(buf', from, to + 1)[k] == Window(buf, from, to)[k]
    {
      ModDistinct(from + k, to, |buf|);
    }
  }

  /** A task deque: its owner pushes and pops at the bottom, newest first; thieves take
      from the top, oldest first. */
  class Deque<T> {
    var buf: array<T>
    var top: nat
    var bot: nat

    ghost predicate Valid()
      reads this, buf
    {
      top <= bot <= top + buf.Length
    }

    ghost function Contents(): (r: seq<T>)
      requires Valid()
      reads this, buf
    {
      Window(buf[..], top, bot)
    }

    constructor ()
      ensures Valid() && fresh(buf) && Contents() == []
    {
      buf := new T[0];
      top, bot := 0, 0;
    }

    /** Double the ring, its entries moved to the front in order. */
    method Grow(x: T)
      requires Valid() && bot - top == buf.Length
      modifies this
      ensures Valid() && fresh(buf) && bot - top < buf.Length
      ensures Contents() == old(Contents())
    {
      hide Window;
      var cap := if buf.Length > 0 then buf.Length * 2 else 64;
      var next := new T[cap](_ => x);
      ghost var was := Contents();
      var i := top;
      while i < bot
        invariant top <= i <= bot && bot - top == buf.Length
        invariant forall k :: 0 <= k < i - top ==> next[k] == was[k]
        modifies next
      {
        WindowAt(buf[..], top, bot, i - top);
        next[i - top] := buf[i % buf.Length];
        i := i + 1;
      }
      bot := bot - top;
      top := 0;
      buf := next;
      WindowFront(buf[..], was);
    }

    method Push(x: T)
      requires Valid()
      modifies this, buf
      ensures Valid() && (buf == old(buf) || fresh(buf))
      ensures Contents() == old(Contents()) + [x]
    {
      if bot - top == buf.Length {
        Grow(x);
      }
      WindowPush(buf[..], top, bot, x);
      ghost var was := buf[..];
      buf[bot % buf.Length] := x;
      assert buf[..] == was[bot % buf.Length := x];
      bot := bot + 1;
    }

    /** Take the newest entry, or for a thief the oldest; `None` when there is none. */
    method Take(steal: bool) returns (r: Option<T>)
      requires Valid()
      modifies this
      ensures Valid() && buf == old(buf)
      ensures var s := old(Contents());
              if s == [] then r.None? && Contents() == s
              else if steal then r == Some(s[0]) && Contents() == s[1..]
              else r == Some(s[|s| - 1]) && Contents() == s[..|s| - 1]
    {
      r := None;
      if bot > top {
        if steal {
          r := Some(buf[top % buf.Length]);
          top := top + 1;
        } else {
          bot := bot - 1;
          r := Some(buf[bot % buf.Length]);
        }
      }
    }
  }

  /** A first-in first-out ring: a channel's messages, and the tasks waiting to run in a
      build without threads. */
  class Queue<T> {
    var buf: array<T>
    var head: nat
    var len: nat

    ghost predicate Valid()
      reads this, buf
    {
      len <= buf.Length && (buf.Length > 0 ==> head < buf.Length)
    }

    ghost function Contents(): (r: seq<T>)
      requires Valid()
      reads this, buf
    {
      Window(buf[..], head, head + len)
    }

    constructor ()
      ensures Valid() && fresh(buf) && Contents() == []
    {
      buf := new T[0];
      head, len := 0, 0;
    }

    method Grow(x: T)
      requires Valid() && len == buf.Length
      modifies this
      ensures Valid() && fresh(buf) && len < buf.Length
      ensures Contents() == old(Contents())
    {
      hide Window;
      var cap := if buf.Length > 0 then buf.Length * 2 else 8;
      var next := new T[cap](_ => x);
      ghost var was := Contents();
      for i := 0 to len
        invariant forall k :: 0 <= k < i ==> next[k] == was[k]
        modifies next
      {
        WindowAt(buf[..], head, head + len, i);
        next[i] := buf[(head + i) % buf.Length];
      }
      buf, head := next, 0;
      WindowFront(buf[..], was);
    }

    method Send(x: T)
      requires Valid()
      modifies this, buf
      ensures Valid() && (buf == old(buf) || fresh(buf))
      ensures Contents() == old(Contents()) + [x]
    {
      if len == buf.Length {
        Grow(x);
      }
      WindowPush(buf[..], head, head + len, x);
      ghost var was := buf[..];
      buf[(head + len) % buf.Length] := x;
      assert buf[..] == was[(head + len) % buf.Length := x];
      len := len + 1;
    }

    /** Take the oldest item, if there is one. */
    method Receive() returns (r: Option<T>)
      requires Valid()
      modifies this
      ensures Valid() && buf == old(buf)
      ensures var s := old(Contents());
              if s == [] then r.None? && Contents() == s else r == Some(s[0]) && Contents() == s[1..]
    {
      r := None;
      if len > 0 {
        r := Some(buf[head]);
        WindowPop(buf[..], head, len);
        head := (head + 1) % buf.Length;
        len := len - 1;
      }
    }
  }

  /** Moving the start of a window past its first entry, wrapped round. */
  lemma WindowPop<T>(buf: seq<T>, head: nat, len: nat)
    requires 0 < len <= |buf| && head < |buf|
    ensures Window(buf, head, head + len)[0] == buf[head]
    ensures var next := (head + 1) % |buf|;
            Window(buf, next, next + len - 1) == Window(buf, head, head + len)[1..]
  {
    var next := (head + 1) % |buf|;
    assert (head + 0) % |buf| == head;
    var a, b := Window(buf, next, next + len - 1), Window(buf, head, head + len)[1..];
    forall k | 0 <= k < len - 1
      ensures a[k] == b[k]
    {
      ModStep(head + 1, k, |buf|);
      assert head + 1 + k == head + (k + 1);
    }
  }

  /** Reducing the start of a window first changes no position in it. */
  lemma {:induction false} ModStep(a: nat, k: nat, n: nat)
    requires n > 0
    ensures (a % n + k) % n == (a + k) % n
  {
    var q := a / n;
    assert a == n * q + a % n;
    ModAdd(a % n + k, q, n);
  }

  lemma ModAdd(b: nat, q: nat, n: nat)
    requires n > 0
    ensures (n * q + b) % n == b % n
  {
    var c := b / n;
    assert n * q + b == n * (q + c) + b % n by {
      MulSub(n, q + c, q);
    }
    DivUnique(n * q + b, n, q + c, b % n);
  }

  lemma DivUnique(x: int, n: int, q: int, r: int)
    requires n > 0 && 0 <= r < n && x == n * q + r
    ensures x % n == r
  {
    var q', r' := x / n, x % n;
    assert n * (q' - q) == r - r' by {
      MulSub(n, q', q);
    }
    assert n * (q - q') == r' - r by {
      MulSub(n, q, q');
    }
    if q' > q {
      MulAtLeast(n, q' - q);
    } else if q' < q {
      MulAtLeast(n, q - q');
    }
  }
}
