/** The bounded double-ended queues behind a player's playlist and history
    (`ArrayDeque<[Track; MUSIC_QUEUE_LIMIT]>` in src/player.rs), the pushes
    that evict the back element when the deque is full, and the two loops
    that move tracks between deques, with closed forms for both. */
module PlayerQueue {
  import opened Wrappers

  /** MUSIC_QUEUE_LIMIT: the capacity of the playlist and of the history. */
  const Limit: nat := 100

  /** The prefix of s that a deque of capacity Limit can hold. */
  function Cap<T>(s: seq<T>): (r: seq<T>)
    ensures |r| == Min(|s|, Limit)
    ensures r == s[..|r|]
  {
    if |s| <= Limit then s else s[..Limit]
  }

  function Reversed<T>(s: seq<T>): (r: seq<T>)
    ensures |r| == |s|
  {
    if s == [] then [] else Reversed(s[1..]) + [s[0]]
  }

  /** push_to_history_front and push_to_playlist_front: when the deque is
      full its back element is popped first, so t always gets in, at the
      front. */
  function PushFront<T>(s: seq<T>, t: T): (r: seq<T>)
    requires |s| <= Limit
    ensures 0 < |r| <= Limit && r[0] == t
    ensures r == Cap([t] + s)
  {
    [t] + (if |s| == Limit then s[..Limit - 1] else s)
  }

  /** push_to_playlist_back: when the deque is full its back element is
      popped first, so t always gets in, at the back; the elements before it
      are the old ones, in order. */
  function PushBack<T>(s: seq<T>, t: T): (r: seq<T>)
    requires |s| <= Limit
    ensures |r| == Min(|s| + 1, Limit) && r[|r| - 1] == t
    ensures r[..|r| - 1] == s[..|r| - 1]
  {
    (if |s| == Limit then s[..Limit - 1] else s) + [t]
  }

  /** Up to n rounds of "pop the front of src and push it to the front of
      dst", stopping early when src runs out: the loop of `skip` outside
      AllLoop (playlist to history) and of `back_skip` (history to
      playlist). The result is the pair (src, dst) afterwards. */
  function MoveFronts<T>(src: seq<T>, dst: seq<T>, n: nat): (r: (seq<T>, seq<T>))
    requires |dst| <= Limit
    ensures |r.0| <= |src| && |r.1| <= Limit
    decreases n
  {
    if n == 0 || src == [] then (src, dst)
    else MoveFronts(src[1..], PushFront(dst, src[0]), n - 1)
  }

  /** Up to n rounds of "pop the front and push it to the back": the loop of
      `skip` in AllLoop mode. */
  function RotateLoop<T>(s: seq<T>, n: nat): (r: seq<T>)
    requires |s| <= Limit
    ensures |r| == |s|
    decreases n
  {
    if n == 0 || s == [] then s
    else RotateLoop(PushBack(s[1..], s[0]), n - 1)
  }

  /** s rotated left by k places, for k <= |s|. */
  function Rotated<T>(s: seq<T>, k: nat): seq<T>
    requires k <= |s|
  {
    s[k..] + s[..k]
  }

  lemma CapAppend<T>(x: seq<T>, y: seq<T>)
    ensures Cap(x + Cap(y)) == Cap(x + y)
  {
    if |y| > Limit {
      assert (x + y[..Limit])[..Limit] == (x + y)[..Limit];
    }
  }

  /** One element appended to a capped sequence: it gets in exactly when
      there is room. */
  lemma CapSnoc<T>(s: seq<T>, t: T)
    ensures |Cap(s)| < Limit ==> Cap(s + [t]) == Cap(s) + [t]
    ensures |Cap(s)| == Limit ==> Cap(s + [t]) == Cap(s)
  {
    if |s| >= Limit {
      assert (s + [t])[..Limit] == s[..Limit];
    }
  }

  /** Closed form of MoveFronts: with k = min(n, |src|), the first k
      elements of src leave it and land, reversed, on the front of dst,
      which keeps its first Limit elements. */
  lemma {:induction false} MoveFrontsClosedForm<T>(src: seq<T>, dst: seq<T>, n: nat)
    requires |dst| <= Limit
    ensures var k := Min(n, |src|);
            MoveFronts(src, dst, n) == (src[k..], Cap(Reversed(src[..k]) + dst))
  {
    var k := Min(n, |src|);
    if n == 0 || src == [] {
      assert src[..k] == [] && Reversed(src[..k]) == [];
      assert Reversed(src[..k]) + dst == dst;
    } else {
      var d := PushFront(dst, src[0]);
      var rest, head := src[1..], src[..k];
      MoveFrontsClosedForm(rest, d, n - 1);
      assert Min(n - 1, |rest|) == k - 1;
      assert rest[k - 1..] == src[k..];
      assert rest[..k - 1] == head[1..];
      assert Reversed(head) == Reversed(head[1..]) + [src[0]];
      CapAppend(Reversed(head[1..]), [src[0]] + dst);
      assert Reversed(head[1..]) + ([src[0]] + dst) == Reversed(head) + dst;
    }
  }

  /** MoveFronts onto a deque that first received the elements of front:
      the moved elements land, reversed, before front. */
  lemma MoveFrontsOnto<T>(src: seq<T>, front: seq<T>, dst: seq<T>, n: nat)
    ensures var k := Min(n, |src|);
            MoveFronts(src, Cap(front + dst), n) == (src[k..], Cap(Reversed(src[..k]) + front + dst))
  {
    var k := Min(n, |src|);
    var rv := Reversed(src[..k]);
    MoveFrontsClosedForm(src, Cap(front + dst), n);
    CapAppend(rv, front + dst);
    assert rv + (front + dst) == rv + front + dst;
  }

  /** Closed form of RotateLoop for up to one full turn: within the
      capacity the push never evicts, so n rounds rotate the deque left by n
      places. */
  lemma {:induction false} RotateLoopIsRotation<T>(s: seq<T>, n: nat)
    requires |s| <= Limit && n <= |s|
    ensures RotateLoop(s, n) == Rotated(s, n)
    decreases n
  {
    if n == 0 {
      assert s[0..] + s[..0] == s;
    } else {
      var t := PushBack(s[1..], s[0]);
      assert t == s[1..] + [s[0]];
      RotateLoopIsRotation(t, n - 1);
      assert t[n - 1..] == s[n..] + [s[0]];
      assert t[..n - 1] == s[1..n];
      assert s[..n] == [s[0]] + s[1..n];
    }
  }

  /** n rounds followed by m rounds are n + m rounds. */
  lemma {:induction false} RotateLoopAdditive<T>(s: seq<T>, n: nat, m: nat)
    requires |s| <= Limit
    ensures RotateLoop(RotateLoop(s, n), m) == RotateLoop(s, n + m)
    decreases n
  {
    if n != 0 && s != [] {
      RotateLoopAdditive(PushBack(s[1..], s[0]), n - 1, m);
    }
  }

  /** RotateLoop is periodic: a full turn of |s| rounds changes nothing. */
  lemma RotateLoopPeriodic<T>(s: seq<T>, n: nat)
    requires |s| <= Limit
    ensures RotateLoop(s, |s| + n) == RotateLoop(s, n)
  {
    RotateLoopIsRotation(s, |s|);
    assert Rotated(s, |s|) == s;
    RotateLoopAdditive(s, |s|, n);
  }

  /** Any number of rounds: RotateLoop rotates a non-empty deque left by
      the number of rounds modulo its length. */
  lemma {:induction false} RotateLoopMod<T>(s: seq<T>, n: nat)
    requires 0 < |s| <= Limit
    ensures RotateLoop(s, n) == Rotated(s, n % |s|)
    decreases n
  {
    if n < |s| {
      ModSmall(n, |s|);
      RotateLoopIsRotation(s, n);
    } else {
      var m := n - |s|;
      RotateLoopPeriodic(s, m);
      RotateLoopMod(s, m);
      ModShift(m, |s|);
      assert m + |s| == n;
    }
  }

  /** RotateLoop loses no element and adds none, for any number of
      rounds. */
  lemma RotateLoopPermutes<T>(s: seq<T>, n: nat)
    requires |s| <= Limit
    ensures multiset(RotateLoop(s, n)) == multiset(s)
  {
    if s != [] {
      RotateLoopMod(s, n);
      RotatedIsPermutation(s, n % |s|);
    }
  }

  /** Adding the modulus does not change the remainder. */
  lemma ModShift(x: nat, m: nat)
    requires 0 < m
    ensures (x + m) % m == x % m
  {
    var a := x + m;
    var q, r := a / m, a % m;
    var q0, r0 := x / m, x % m;
    assert a == q * m + r;
    assert a == (q0 + 1) * m + r0 by {
      assert (q0 + 1) * m == q0 * m + m;
    }
    assert (q - q0 - 1) * m == r0 - r by {
      assert (q - q0 - 1) * m == q * m - q0 * m - m;
    }
    if q - q0 - 1 >= 1 {
      MulAtLeast(q - q0 - 1, m);
      assert false;
    } else if q - q0 - 1 <= -1 {
      MulAtLeast(q0 + 1 - q, m);
      assert false;
    }
  }

  /** A number below the modulus is its own remainder. */
  lemma ModSmall(x: nat, m: nat)
    requires x < m
    ensures x % m == x
  {
  }

  lemma MulAtLeast(d: int, m: int)
    requires d >= 1 && m > 0
    ensures d * m >= m
  {
  }

  /** A rotation loses no element and adds none. */
  lemma RotatedIsPermutation<T>(s: seq<T>, k: nat)
    requires k <= |s|
    ensures multiset(Rotated(s, k)) == multiset(s)
  {
    assert s == s[..k] + s[k..];
  }
}
