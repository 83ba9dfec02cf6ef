/** Message histories: an array that is appended to with `push` and trimmed
    with one `shift` when it outgrows its capacity, and read back with
    `slice(-limit)`. Both chat services share this discipline. */
module History {
  import opened Wrappers

  function Min(a: int, b: int): int { if a <= b then a else b }

  /** The last `n` elements of `s` (all of `s` when it is shorter). */
  function Window<T>(s: seq<T>, n: nat): (w: seq<T>)
    ensures |w| == Min(n, |s|)
    ensures w == s[|s| - |w|..]
  {
    s[|s| - Min(n, |s|)..]
  }

  /** `h.push(x); if (h.length > cap) h.shift();` */
  function Push<T>(h: seq<T>, x: T, cap: nat): (r: seq<T>)
    // r is a suffix of h + [x] ...
    ensures |r| <= |h| + 1 && r == (h + [x])[|h| + 1 - |r|..]
    // ... that drops nothing while there is room, and exactly the oldest entry otherwise
    ensures |r| == if |h| < cap then |h| + 1 else |h|
    ensures |h| <= cap ==> |r| <= cap
  {
    var pushed := h + [x];
    if |pushed| > cap then pushed[1..] else pushed
  }

  /** Pushing `xs` one after the other, oldest first. */
  function PushAll<T>(h: seq<T>, xs: seq<T>, cap: nat): seq<T>
    decreases |xs|
  {
    if |xs| == 0 then h else PushAll(Push(h, xs[0], cap), xs[1..], cap)
  }

  /** Dropping the first element of a sequence longer than `n` keeps its
      last `n` elements. */
  lemma WindowDropFirst<T>(s: seq<T>, n: nat)
    requires |s| > n
    ensures Window(s[1..], n) == Window(s, n)
  {
  }

  /** One push into a history within capacity does not change which
      entries are newest. */
  lemma PushKeepsWindow<T>(h: seq<T>, x: T, rest: seq<T>, cap: nat)
    requires |h| <= cap
    ensures Window(Push(h, x, cap) + rest, cap) == Window(h + [x] + rest, cap)
  {
    if |h| == cap {
      var s := h + [x] + rest;
      assert Push(h, x, cap) + rest == s[1..];
      WindowDropFirst(s, cap);
    }
  }

  /** Moving the first element of `xs` across the seam of `h + xs`. */
  lemma AppendFirst<T>(h: seq<T>, xs: seq<T>)
    requires |xs| > 0
    ensures h + [xs[0]] + xs[1..] == h + xs
  {
    assert [xs[0]] + xs[1..] == xs;
    assert h + [xs[0]] + xs[1..] == h + ([xs[0]] + xs[1..]);
  }

  /** FIFO eviction: starting from a history within capacity, any run of
      pushes leaves exactly the newest `cap` entries of everything pushed,
      in their original order. */
  lemma {:induction false} PushAllKeepsNewest<T>(h: seq<T>, xs: seq<T>, cap: nat)
    requires |h| <= cap
    ensures PushAll(h, xs, cap) == Window(h + xs, cap)
    decreases |xs|
  {
    if |xs| == 0 {
      assert h + xs == h;
    } else {
      var h' := Push(h, xs[0], cap);
      var rest := xs[1..];
      PushAllKeepsNewest(h', rest, cap);
      PushKeepsWindow(h, xs[0], rest, cap);
      AppendFirst(h, xs);
    }
  }

  /** `array.slice(start)` for an integer `start` (a negative start counts
      from the end). */
  function SliceFrom<T>(h: seq<T>, start: int): (r: seq<T>)
    ensures start < 0 ==> r == Window(h, -start)
    ensures 0 <= start ==> r == h[Min(start, |h|)..]
  {
    if start < 0 then
      (if |h| + start < 0 then h else h[|h| + start..])
    else h[Min(start, |h|)..]
  }

  /** `limit ? h.slice(-limit) : [...h]` for an integer or absent `limit`. */
  function Recent<T>(h: seq<T>, limit: Option<int>): (r: seq<T>)
    // no limit, or a limit of 0: a copy of the whole history
    ensures limit == None || limit == Some(0) ==> r == h
    // a positive limit: the last min(limit, |h|) entries, in order
    ensures limit.Some? && limit.value > 0 ==>
      |r| == Min(limit.value, |h|) && r == h[|h| - |r|..]
    // a negative limit: everything but the first -limit entries
    ensures limit.Some? && limit.value < 0 ==> r == h[Min(-limit.value, |h|)..]
  {
    match limit
    case None => h
    case Some(n) => if n == 0 then h else SliceFrom(h, -n)
  }
}
