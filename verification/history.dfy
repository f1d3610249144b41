/**
 * The bounded message history that both service workers keep: each new message is
 * pushed at the end and, when that makes the history longer than the capacity, the
 * oldest one is shifted off the front.
 */
module History {

  /** The number of messages either worker keeps. */
  const Capacity: nat := 50

  /** The last `n` elements of `s` (all of `s` when it is shorter), oldest first. */
  function Latest<T>(s: seq<T>, n: nat): (r: seq<T>)
    ensures |r| == if |s| <= n then |s| else n
  {
    if |s| <= n then s else s[|s| - n..]
  }

  /** One `push` followed by a `shift` when the result exceeds the capacity. */
  function Append<T>(h: seq<T>, m: T): (r: seq<T>)
    ensures |r| > 0 && r[|r| - 1] == m
    ensures |h| <= Capacity ==> |r| <= Capacity
    ensures |h| <= Capacity ==> r == Latest(h + [m], Capacity)
  {
    var pushed := h + [m];
    if |pushed| > Capacity then pushed[1..] else pushed
  }

  /** The history after appending every element of `ms`, in order. */
  function AppendAll<T>(h: seq<T>, ms: seq<T>): (r: seq<T>)
    ensures |h| <= Capacity ==> |r| <= Capacity
    decreases |ms|
  {
    if ms == [] then h else AppendAll(Append(h, ms[0]), ms[1..])
  }

  /** Keeping the latest elements, then one more, keeps the latest of the longer sequence. */
  lemma LatestStep<T>(s: seq<T>, x: T, n: nat)
    ensures Latest(Latest(s, n) + [x], n) == Latest(s + [x], n)
  {
  }

  /**
   * Appending a run of messages to a window of some earlier stream gives the window of
   * the whole stream: the buffer is exactly a sliding window over every message seen.
   */
  lemma {:induction false} AppendAllWindow<T>(s: seq<T>, ms: seq<T>)
    ensures AppendAll(Latest(s, Capacity), ms) == Latest(s + ms, Capacity)
    decreases |ms|
  {
    if ms == [] {
      assert s + ms == s;
    } else {
      LatestStep(s, ms[0], Capacity);
      assert Append(Latest(s, Capacity), ms[0]) == Latest(s + [ms[0]], Capacity);
      AppendAllWindow(s + [ms[0]], ms[1..]);
      assert s + [ms[0]] + ms[1..] == s + ms;
    }
  }

  /**
   * Starting from the empty history, N appends leave the last min(N, Capacity) messages in
   * arrival order; in particular nothing is lost while N <= Capacity.
   */
  lemma ReplayFromEmpty<T>(ms: seq<T>)
    ensures AppendAll([], ms) == Latest(ms, Capacity)
    ensures |AppendAll([], ms)| == if |ms| <= Capacity then |ms| else Capacity
    ensures |ms| <= Capacity ==> AppendAll([], ms) == ms
  {
    AppendAllWindow([], ms);
    assert [] + ms == ms;
  }

  /** Sixty messages M1..M60 leave M11..M60: the ten oldest are evicted first. */
  lemma SixtyMessages<T>(ms: seq<T>)
    requires |ms| == 60
    ensures AppendAll([], ms) == ms[10..]
  {
    ReplayFromEmpty(ms);
  }
}
