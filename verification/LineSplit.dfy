/** Cutting a byte stream into lines, independently of how it is read.

`Lines(s)` are the newline-terminated lines of `s` (terminator removed) and
`Tail(s)` is what follows the last newline. `JoinSplit`, `SplitNewlineFree` and
`SplitUnique` say that this is the one and only way to write `s` as
newline-free pieces; `SplitAppend` is the law that makes incremental reading
possible.
*/
module LineSplit {
  import opened Basics

  type Line = Bytes

  const NEWLINE: Byte := 10

  function Lines(s: Bytes): seq<Line> {
    if s == [] then []
    else
      var n := |s| - 1;
      Lines(s[..n]) + (if s[n] == NEWLINE then [Tail(s[..n])] else [])
  }

  function Tail(s: Bytes): Bytes {
    if s == [] then []
    else
      var n := |s| - 1;
      if s[n] == NEWLINE then [] else Tail(s[..n]) + [s[n]]
  }

  function Join(ls: seq<Line>): Bytes {
    if ls == [] then [] else Join(ls[..|ls| - 1]) + ls[|ls| - 1] + [NEWLINE]
  }

  predicate NewlineFree(ls: seq<Line>) {
    forall k :: 0 <= k < |ls| ==> NEWLINE !in ls[k]
  }

  /** Reading `b` after `a` only needs the unterminated tail of `a`. */
  lemma {:induction false} SplitAppend(a: Bytes, b: Bytes)
    ensures Lines(a + b) == Lines(a) + Lines(Tail(a) + b)
    ensures Tail(a + b) == Tail(Tail(a) + b)
  {
    if b == [] {
      assert a + b == a && Tail(a) + b == Tail(a);
      SplitNewlineFree(a);
      SplitPlain(Tail(a));
    } else {
      var n := |b| - 1;
      SplitAppend(a, b[..n]);
      assert (a + b)[..|a + b| - 1] == a + b[..n];
      assert (Tail(a) + b)[..|Tail(a) + b| - 1] == Tail(a) + b[..n];
    }
  }

  lemma {:induction false} SplitPlain(s: Bytes)
    requires NEWLINE !in s
    ensures Lines(s) == [] && Tail(s) == s
  {
    if s != [] {
      SplitPlain(s[..|s| - 1]);
    }
  }

  /** The first line of a stream, peeled off. */
  lemma PeelLine(l: Line, rest: Bytes)
    requires NEWLINE !in l
    ensures Lines(l + [NEWLINE] + rest) == [l] + Lines(rest)
    ensures Tail(l + [NEWLINE] + rest) == Tail(rest)
  {
    var a := l + [NEWLINE];
    assert a[..|a| - 1] == l;
    SplitPlain(l);
    SplitAppend(a, rest);
    assert Tail(a) + rest == rest;
  }

  /** Nothing is lost by splitting. */
  lemma {:induction false} JoinSplit(s: Bytes)
    ensures Join(Lines(s)) + Tail(s) == s
  {
    if s != [] {
      var n := |s| - 1;
      JoinSplit(s[..n]);
      assert s == s[..n] + [s[n]];
      JoinEnd(Lines(s[..n]), Tail(s[..n]), s[n], s[..n]);
      assert s[n] != NEWLINE ==> Lines(s) == Lines(s[..n]);
    }
  }

  lemma JoinEnd(ls: seq<Line>, t: Bytes, b: Byte, start: Bytes)
    requires Join(ls) + t == start
    ensures Join(ls) + (t + [b]) == start + [b]
    ensures Join(ls + [t]) + [] == start + [NEWLINE]
  {
    assert (ls + [t])[..|ls|] == ls;
    assert Join(ls + [t]) == Join(ls) + t + [NEWLINE];
    assert Join(ls) + (t + [b]) == Join(ls) + t + [b];
  }

  /** The pieces of a split are newline-free. */
  lemma {:induction false} SplitNewlineFree(s: Bytes)
    ensures NewlineFree(Lines(s)) && NEWLINE !in Tail(s)
  {
    if s != [] {
      SplitNewlineFree(s[..|s| - 1]);
    }
  }

  /** Splitting is the only newline-free decomposition. */
  lemma {:induction false} SplitUnique(ls: seq<Line>, t: Bytes)
    requires NewlineFree(ls) && NEWLINE !in t
    ensures Lines(Join(ls) + t) == ls
    ensures Tail(Join(ls) + t) == t
  {
    hide Lines, Tail;
    SplitPlain(t);
    if ls == [] {
      assert Join(ls) + t == t;
    } else {
      var init, l := ls[..|ls| - 1], ls[|ls| - 1];
      SplitUnique(init, l);
      var body := Join(init) + l;
      assert Join(ls) == body + [NEWLINE];
      LineEnds(body);
      SplitAppend(Join(ls), t);
      assert Tail(Join(ls)) + t == t;
    }
  }

  lemma LineEnds(body: Bytes)
    ensures Lines(body + [NEWLINE]) == Lines(body) + [Tail(body)] && Tail(body + [NEWLINE]) == []
  {
    assert (body + [NEWLINE])[..|body|] == body;
  }

  /** Keep the elements that a predicate accepts, in order. */
  function Filter<T>(p: T -> bool, xs: seq<T>): seq<T> {
    if xs == [] then []
    else Filter(p, xs[..|xs| - 1]) + (if p(xs[|xs| - 1]) then [xs[|xs| - 1]] else [])
  }

  lemma {:induction false} FilterAppend<T>(p: T -> bool, a: seq<T>, b: seq<T>)
    ensures Filter(p, a + b) == Filter(p, a) + Filter(p, b)
  {
    if b == [] {
      assert a + b == a;
    } else {
      assert (a + b)[..|a + b| - 1] == a + b[..|b| - 1];
      FilterAppend(p, a, b[..|b| - 1]);
    }
  }

  lemma FilterLast<T>(p: T -> bool, xs: seq<T>, x: T)
    ensures Filter(p, xs + [x]) == if p(x) then Filter(p, xs) + [x] else Filter(p, xs)
  {
    assert (xs + [x])[..|xs|] == xs;
    assert Filter(p, xs) + [] == Filter(p, xs);
  }

  lemma FilterOne<T>(p: T -> bool, x: T)
    ensures Filter(p, [x]) == if p(x) then [x] else []
  {
    assert [x][..0] == [];
    assert Filter(p, [x][..0]) == [];
  }

  predicate All<T>(p: T -> bool, xs: seq<T>) {
    forall k :: 0 <= k < |xs| ==> p(xs[k])
  }

  lemma {:induction false} FilterAll<T>(p: T -> bool, xs: seq<T>)
    requires All(p, xs)
    ensures Filter(p, xs) == xs
  {
    if xs != [] {
      FilterAll(p, xs[..|xs| - 1]);
    }
  }

  predicate HasText(l: Line) { l != [] }

  /** The lines that `readNew` hands on: empty ones are passed over. */
  function NonEmpty(ls: seq<Line>): seq<Line> {
    Filter(HasText, ls)
  }

  lemma NothingToTake(s: Bytes)
    requires NEWLINE !in s
    ensures NonEmpty(Lines(s)) == [] && Tail(s) == s
  {
    SplitPlain(s);
  }

  /** One turn of the loop that cuts a buffer into lines. */
  lemma NonEmptyPeel(l: Line, rest: Bytes)
    requires NEWLINE !in l
    ensures NonEmpty(Lines(l + [NEWLINE] + rest)) == (if l == [] then [] else [l]) + NonEmpty(Lines(rest))
    ensures Tail(l + [NEWLINE] + rest) == Tail(rest)
  {
    PeelLine(l, rest);
    FilterAppend(HasText, [l], Lines(rest));
    assert [l][..0] == [];
  }

  /** How many bytes of `s` belong to lines rather than end them. */
  function Plain(s: Bytes): nat {
    if s == [] then 0 else Plain(s[..|s| - 1]) + (if s[|s| - 1] == NEWLINE then 0 else 1)
  }

  function Total(ls: seq<Line>): nat {
    if ls == [] then 0 else Total(ls[..|ls| - 1]) + |ls[|ls| - 1]|
  }

  lemma {:induction false} PlainAppend(a: Bytes, b: Bytes)
    ensures Plain(a + b) == Plain(a) + Plain(b)
  {
    if b == [] {
      assert a + b == a;
    } else {
      assert (a + b)[..|a + b| - 1] == a + b[..|b| - 1];
      PlainAppend(a, b[..|b| - 1]);
    }
  }

  lemma TotalOneMore(ls: seq<Line>, l: Line)
    ensures Total(ls + (if l != [] then [l] else [])) == Total(ls) + |l|
  {
    assert l == [] ==> ls + [] == ls;
    assert (ls + [l])[..|ls|] == ls;
  }

  /** The lines handed on and the tail hold exactly the plain bytes. */
  lemma {:induction false} PlainSplit(s: Bytes)
    ensures Plain(s) == Total(NonEmpty(Lines(s))) + |Tail(s)|
  {
    if s != [] {
      var n := |s| - 1;
      PlainSplit(s[..n]);
      if s[n] == NEWLINE {
        var l := Tail(s[..n]);
        assert (Lines(s[..n]) + [l])[..|Lines(s[..n])|] == Lines(s[..n]);
        assert NonEmpty(Lines(s)) == NonEmpty(Lines(s[..n])) + (if l != [] then [l] else []);
        TotalOneMore(NonEmpty(Lines(s[..n])), l);
      } else {
        assert Lines(s) == Lines(s[..n]);
      }
    }
  }

  /** Cutting off the tail loses as many plain bytes as it holds. */
  lemma PlainWithoutTail(s: Bytes)
    ensures Plain(Join(Lines(s))) + |Tail(s)| == Plain(s)
  {
    JoinSplit(s);
    PlainAppend(Join(Lines(s)), Tail(s));
    SplitNewlineFree(s);
    SplitPlain(Tail(s));
    PlainSplit(Tail(s));
  }

  /** `at` lists increasing positions at which the elements of `a` stand in `b`. */
  ghost predicate Embeds<T>(at: seq<nat>, a: seq<T>, b: seq<T>) {
    && |at| == |a|
    && (forall i, j :: 0 <= i < j < |at| ==> at[i] < at[j])
    && (forall i :: 0 <= i < |at| ==> at[i] < |b| && b[at[i]] == a[i])
  }

  /** `a` can be obtained from `b` by deleting elements. */
  ghost predicate Subsequence<T>(a: seq<T>, b: seq<T>) {
    exists at: seq<nat> :: Embeds(at, a, b)
  }

  lemma SubsequenceRefl<T>(a: seq<T>)
    ensures Subsequence(a, a)
  {
    assert Embeds(seq(|a|, i => i), a, a);
  }

  lemma SubsequenceExtend<T>(a: seq<T>, b: seq<T>, more: seq<T>)
    requires Subsequence(a, b)
    ensures Subsequence(a, b + more)
  {
    var at :| Embeds(at, a, b);
    assert Embeds(at, a, b + more);
  }

  lemma SubsequenceBoth<T>(a: seq<T>, b: seq<T>, more: seq<T>)
    requires Subsequence(a, b)
    ensures Subsequence(a + more, b + more)
  {
    var at :| Embeds(at, a, b);
    assert Embeds(at + seq(|more|, i requires i >= 0 => |b| + i), a + more, b + more);
  }

  lemma SubsequenceConcat<T>(a: seq<T>, b: seq<T>, c: seq<T>, d: seq<T>)
    requires Subsequence(a, b) && Subsequence(c, d)
    ensures Subsequence(a + c, b + d)
  {
    var p :| Embeds(p, a, b);
    var q :| Embeds(q, c, d);
    assert Embeds(p + seq(|q|, i requires 0 <= i < |q| => |b| + q[i]), a + c, b + d);
  }

  /** Deleting a middle segment keeps a subsequence one. */
  lemma SubsequenceDrop<T>(a: seq<T>, gone: seq<T>, c: seq<T>, b: seq<T>)
    requires Subsequence(a + gone + c, b)
    ensures Subsequence(a + c, b)
  {
    var at :| Embeds(at, a + gone + c, b);
    assert Embeds(at[..|a|] + at[|a| + |gone|..], a + c, b);
  }
}
