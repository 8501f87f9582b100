/**
 Decode results: classified messages, the deterministic order, and the merging of
 duplicate candidates.
 */
module Decodes {
  import opened Audio

  const MAX_TEXT: nat := 64
  const MAX_DETAIL: nat := 128

  datatype MessageClass =
    | GeneralCall | DirectedGrid | SignalReport | RogerSignalReport | Roger | Ending73 | EndingRr73

  /** A callsign is carried by its original spelling, which determines it. */
  type Callsign = string

  datatype Message =
    | Resolved(text: string, sender: Callsign, recipient: Option<Callsign>, messageClass: MessageClass)
    | UnresolvedHash(text: string, detail: string)
    | Unsupported(text: string, detail: string)
    | Ambiguous(text: string, detail: string)
    | FreeText(text: string)
  {
    /** What the checked constructors demand. */
    predicate Valid() {
      && ValidText(text, MAX_TEXT)
      && (Resolved? ==> (recipient.Some? <==> messageClass != GeneralCall))
      && (UnresolvedHash? || Unsupported? || Ambiguous? ==> ValidText(detail, MAX_DETAIL))
    }

    /** Position of the outcome kind in its declaration order. */
    function Kind(): nat {
      match this
      case Resolved(_, _, _, _) => 0
      case UnresolvedHash(_, _) => 1
      case Unsupported(_, _) => 2
      case Ambiguous(_, _) => 3
      case FreeText(_) => 4
    }
  }

  /** Nonempty, bounded, printable ASCII. */
  predicate ValidText(text: string, maximum: nat) {
    1 <= |text| <= maximum && forall c | c in text :: ' ' <= c <= '~'
  }

  datatype Decode = Decode(offsetMillis: int, frequencyHz: nat, snrDb: int, message: Message)

  // ---------------------------------------------------------------------
  // The deterministic order
  // ---------------------------------------------------------------------

  function CompareInt(a: int, b: int): int { if a < b then -1 else if a > b then 1 else 0 }

  function CompareText(a: string, b: string): int {
    if a == [] then (if b == [] then 0 else -1)
    else if b == [] then 1
    else if a[0] != b[0] then (if a[0] < b[0] then -1 else 1)
    else CompareText(a[1..], b[1..])
  }

  /** Time, frequency, text, kind, then signal strength. */
  function Compare(a: Decode, b: Decode): int {
    if a.offsetMillis != b.offsetMillis then CompareInt(a.offsetMillis, b.offsetMillis)
    else if a.frequencyHz != b.frequencyHz then CompareInt(a.frequencyHz, b.frequencyHz)
    else if CompareText(a.message.text, b.message.text) != 0 then CompareText(a.message.text, b.message.text)
    else if a.message.Kind() != b.message.Kind() then CompareInt(a.message.Kind(), b.message.Kind())
    else CompareInt(a.snrDb, b.snrDb)
  }

  predicate Before(a: Decode, b: Decode) { Compare(a, b) <= 0 }

  /** Two results that the order cannot tell apart. */
  predicate Ties(a: Decode, b: Decode) { Compare(a, b) == 0 }

  lemma TextOrder(a: string, b: string, c: string)
    ensures CompareText(a, b) == -CompareText(b, a)
    ensures CompareText(a, b) == 0 <==> a == b
    ensures CompareText(a, b) <= 0 && CompareText(b, c) <= 0 ==> CompareText(a, c) <= 0
  {
    if a != [] && b != [] {
      assert a == [a[0]] + a[1..] && b == [b[0]] + b[1..];
      if c != [] { TextOrder(a[1..], b[1..], c[1..]); } else { TextOrder(a[1..], b[1..], []); }
    }
  }

  /** Two results tie exactly when their five keys agree. */
  lemma TiesIsKeyEquality(a: Decode, b: Decode)
    ensures Ties(a, b) <==>
              && a.offsetMillis == b.offsetMillis && a.frequencyHz == b.frequencyHz
              && a.message.text == b.message.text && a.message.Kind() == b.message.Kind() && a.snrDb == b.snrDb
  {
    TextOrder(a.message.text, b.message.text, []);
  }

  lemma OrderTotal(a: Decode, b: Decode, c: Decode)
    ensures Before(a, b) || Before(b, a)
    ensures Ties(a, b) <==> Before(a, b) && Before(b, a)
    ensures Before(a, b) && Before(b, c) ==> Before(a, c)
    ensures Ties(a, a)
  {
    TextOrder(a.message.text, b.message.text, c.message.text);
    TextOrder(b.message.text, c.message.text, a.message.text);
    TextOrder(a.message.text, c.message.text, b.message.text);
    TextOrder(a.message.text, a.message.text, a.message.text);
    hide Message.Kind;
  }

  /** `a` is a proper beginning of `b`, or smaller at the first character where they differ. */
  ghost predicate TextLess(a: string, b: string) {
    || a < b
    || exists i | 0 <= i < |a| && i < |b| :: a[..i] == b[..i] && a[i] < b[i]
  }

  /** Outcomes in the order resolved, unresolved hash, unsupported, ambiguous, free text. */
  predicate KindLess(a: Message, b: Message) {
    || (a.Resolved? && !b.Resolved?)
    || (a.UnresolvedHash? && !b.Resolved? && !b.UnresolvedHash?)
    || (a.Unsupported? && (b.Ambiguous? || b.FreeText?))
    || (a.Ambiguous? && b.FreeText?)
  }

  /** Earlier; at one time lower; at one frequency smaller in text; of one text earlier in kind; of one kind no
      stronger. */
  ghost predicate Precedes(a: Decode, b: Decode) {
    || a.offsetMillis < b.offsetMillis
    || (a.offsetMillis == b.offsetMillis && a.frequencyHz < b.frequencyHz)
    || (a.offsetMillis == b.offsetMillis && a.frequencyHz == b.frequencyHz &&
        (|| TextLess(a.message.text, b.message.text)
         || (a.message.text == b.message.text &&
             (KindLess(a.message, b.message) || (!KindLess(b.message, a.message) && a.snrDb <= b.snrDb)))))
  }

  lemma {:induction false} TextVerdict(a: string, b: string)
    ensures CompareText(a, b) < 0 <==> TextLess(a, b)
    ensures CompareText(a, b) == 0 <==> a == b
    decreases |a|
  {
    TextOrder(a, b, []);
    if a != [] && b != [] {
      if a[0] == b[0] {
        TextVerdict(a[1..], b[1..]);
        TextLessTail(a, b);
      } else {
        FirstDiffers(a, b);
      }
    }
  }

  lemma FirstDiffers(a: string, b: string)
    requires a != [] && b != [] && a[0] != b[0]
    ensures TextLess(a, b) <==> a[0] < b[0]
  {
    assert a[..0] == b[..0];
    forall i | 0 < i < |a| && i < |b|
      ensures a[..i] != b[..i]
    {
      assert a[..i][0] == a[0] && b[..i][0] == b[0];
    }
  }

  lemma TextLessTail(a: string, b: string)
    requires a != [] && b != [] && a[0] == b[0]
    ensures TextLess(a, b) <==> TextLess(a[1..], b[1..])
  {
    var (x, y) := (a[1..], b[1..]);
    assert a == [a[0]] + x && b == [b[0]] + y;
    if TextLess(a, b) && !(a < b) {
      var i :| 0 <= i < |a| && i < |b| && a[..i] == b[..i] && a[i] < b[i];
      assert x[..i - 1] == a[..i][1..] && y[..i - 1] == b[..i][1..];
      assert x[i - 1] < y[i - 1];
    }
    if TextLess(x, y) && !(x < y) {
      var i :| 0 <= i < |x| && i < |y| && x[..i] == y[..i] && x[i] < y[i];
      assert a[..i + 1] == [a[0]] + x[..i] && b[..i + 1] == [b[0]] + y[..i];
      assert a[i + 1] < b[i + 1];
    }
  }

  /** The comparison is the lexicographic order of the five keys. */
  lemma BeforeVerdict(a: Decode, b: Decode)
    ensures Before(a, b) <==> Precedes(a, b)
  {
    TextVerdict(a.message.text, b.message.text);
    hide TextLess, CompareText;
  }

  // ---------------------------------------------------------------------
  // The stable sort
  // ---------------------------------------------------------------------

  function Insert(x: Decode, s: seq<Decode>): seq<Decode> {
    if s == [] || Before(x, s[0]) then [x] + s else [s[0]] + Insert(x, s[1..])
  }

  function Sorted(s: seq<Decode>): seq<Decode> {
    if s == [] then [] else Insert(s[0], Sorted(s[1..]))
  }

  predicate Ordered(s: seq<Decode>) {
    forall i, j | 0 <= i < j < |s| :: Before(s[i], s[j])
  }

  /** The entries of `s` that tie with `x`, in their order in `s`. */
  function TiesWith(s: seq<Decode>, x: Decode): seq<Decode> {
    if s == [] then [] else (if Ties(x, s[0]) then [s[0]] else []) + TiesWith(s[1..], x)
  }

  lemma InsertOrdered(x: Decode, s: seq<Decode>)
    requires Ordered(s)
    ensures Ordered(Insert(x, s)) && multiset(Insert(x, s)) == multiset([x] + s)
  {
    hide Before, Compare;
    if s == [] {
    } else if Before(x, s[0]) {
      forall j | 0 <= j < |s|
        ensures Before(x, s[j])
      {
        OrderTotal(x, s[0], s[j]);
      }
    } else {
      var rest := Insert(x, s[1..]);
      InsertOrdered(x, s[1..]);
      OrderTotal(x, s[0], s[0]);
      assert s == [s[0]] + s[1..];
      forall j | 0 <= j < |rest|
        ensures Before(s[0], rest[j])
      {
        assert rest[j] in multiset([x] + s[1..]);
      }
    }
  }

  lemma InsertStable(x: Decode, s: seq<Decode>, k: Decode)
    ensures TiesWith(Insert(x, s), k) == TiesWith([x] + s, k)
  {
    hide Before, Ties;
    assert ([x] + s)[1..] == s;
    if s != [] && !Before(x, s[0]) {
      InsertStable(x, s[1..], k);
      assert ([x] + s[1..])[1..] == s[1..];
      OrderTotal(k, x, s[0]);
      OrderTotal(x, s[0], k);
      OrderTotal(x, k, s[0]);
      OrderTotal(k, s[0], x);
      assert ([s[0]] + Insert(x, s[1..]))[1..] == Insert(x, s[1..]);
    }
  }

  /** In the order of time, frequency, text, kind and strength. */
  ghost predicate InOrder(s: seq<Decode>) {
    forall i, j | 0 <= i < j < |s| :: Precedes(s[i], s[j])
  }

  lemma OrderedInOrder(s: seq<Decode>)
    ensures Ordered(s) <==> InOrder(s)
  {
    hide Before, Precedes;
    forall i, j | 0 <= i < j < |s|
      ensures Before(s[i], s[j]) <==> Precedes(s[i], s[j])
    {
      BeforeVerdict(s[i], s[j]);
    }
  }

  /** The sort is in the order of the five keys, keeps every entry, and keeps tied entries in their given
      order. */
  lemma SortVerdict(s: seq<Decode>)
    ensures InOrder(Sorted(s)) && multiset(Sorted(s)) == multiset(s)
    ensures forall k :: TiesWith(Sorted(s), k) == TiesWith(s, k)
  {
    SortedIsStableSort(s);
    OrderedInOrder(Sorted(s));
    hide Sorted, TiesWith, Ordered, InOrder;
  }

  lemma {:induction false} SortedIsStableSort(s: seq<Decode>)
    ensures Ordered(Sorted(s)) && multiset(Sorted(s)) == multiset(s)
    ensures forall k :: TiesWith(Sorted(s), k) == TiesWith(s, k)
  {
    if s != [] {
      SortedIsStableSort(s[1..]);
      InsertOrdered(s[0], Sorted(s[1..]));
      assert s == [s[0]] + s[1..];
      forall k
        ensures TiesWith(Sorted(s), k) == TiesWith(s, k)
      {
        InsertStable(s[0], Sorted(s[1..]), k);
        assert ([s[0]] + Sorted(s[1..]))[1..] == Sorted(s[1..]);
      }
    }
  }

  /** Sorting what is already in order changes nothing. */
  lemma {:induction false} SortedIdempotent(s: seq<Decode>)
    requires Ordered(s)
    ensures Sorted(s) == s
  {
    if s != [] {
      SortedIdempotent(s[1..]);
      if |s| > 1 { assert Before(s[0], s[1]); }
    }
  }

  /** No two different entries tie. */
  predicate NoDistinctTies(m: multiset<Decode>) {
    forall a, b | a in m && b in m && Ties(a, b) :: a == b
  }

  lemma LeastFirst(s: seq<Decode>, x: Decode)
    requires s != [] && Ordered(s) && x in multiset(s)
    ensures Before(s[0], x)
  {
    hide Before;
    OrderTotal(x, x, x);
  }

  lemma TiedEqual(m: multiset<Decode>, a: Decode, b: Decode)
    requires NoDistinctTies(m) && a in m && b in m && Ties(a, b)
    ensures a == b
  {
  }

  lemma TailOrdered(s: seq<Decode>)
    requires s != [] && Ordered(s)
    ensures Ordered(s[1..]) && multiset(s[1..]) == multiset(s) - multiset{s[0]}
    ensures NoDistinctTies(multiset(s)) ==> NoDistinctTies(multiset(s[1..]))
  {
    hide Before, Ties;
    assert s == [s[0]] + s[1..];
    assert multiset(s) == multiset{s[0]} + multiset(s[1..]);
  }

  lemma OrderedUnique(s: seq<Decode>, t: seq<Decode>)
    requires Ordered(s) && Ordered(t) && multiset(s) == multiset(t) && NoDistinctTies(multiset(s))
    ensures s == t
  {
    hide Ties, Ordered, NoDistinctTies;
    assert |multiset(s)| == |s| && |multiset(t)| == |t|;
    if s != [] {
      LeastFirst(s, t[0]);
      LeastFirst(t, s[0]);
      OrderTotal(s[0], t[0], t[0]);
      TiedEqual(multiset(s), s[0], t[0]);
      TailOrdered(s);
      TailOrdered(t);
      OrderedUnique(s[1..], t[1..]);
    }
  }

  ghost predicate OrderIndependent(m: multiset<Decode>) {
    forall s, t | multiset(s) == m && multiset(t) == m :: Sorted(s) == Sorted(t)
  }

  /** Two orders of the same results that differ only in a tied pair sort differently. */
  lemma TieKeepsOrder(a: Decode, b: Decode, rest: seq<Decode>)
    requires a != b && Ties(a, b)
    ensures multiset([a, b] + rest) == multiset([b, a] + rest)
    ensures Sorted([a, b] + rest) != Sorted([b, a] + rest)
  {
    var (s, t) := ([a, b] + rest, [b, a] + rest);
    SortedIsStableSort(s);
    SortedIsStableSort(t);
    OrderTotal(a, a, a);
    assert TiesWith(s, a)[0] == a && TiesWith(t, a)[0] == b;
  }

  lemma Arrangement(m: multiset<Decode>) returns (s: seq<Decode>)
    ensures multiset(s) == m
    decreases |m|
  {
    s := [];
    if m != multiset{} {
      var x :| x in m;
      s := Arrangement(m - multiset{x});
      s := [x] + s;
      assert multiset(s) == m;
    }
  }

  lemma SortsAgree(s: seq<Decode>, t: seq<Decode>)
    requires multiset(s) == multiset(t) && NoDistinctTies(multiset(s))
    ensures Sorted(s) == Sorted(t)
  {
    hide Ties, Sorted, TiesWith, Ordered, NoDistinctTies;
    SortedIsStableSort(s);
    SortedIsStableSort(t);
    OrderedUnique(Sorted(s), Sorted(t));
  }

  /** The sorted list is independent of the given order exactly when no two different entries tie. */
  lemma OrderIndependentIffNoTies(m: multiset<Decode>)
    ensures OrderIndependent(m) <==> NoDistinctTies(m)
  {
    if NoDistinctTies(m) {
      hide NoDistinctTies, Sorted;
      forall s, t | multiset(s) == m && multiset(t) == m
        ensures Sorted(s) == Sorted(t)
      {
        SortsAgree(s, t);
      }
    } else {
      hide Ties;
      var a, b :| a in m && b in m && Ties(a, b) && a != b;
      TieBreaksIndependence(m, a, b);
    }
  }

  lemma TwoFirst(m: multiset<Decode>, a: Decode, b: Decode, rest: seq<Decode>)
    requires a in m && b in m && a != b && multiset(rest) == m - multiset{a} - multiset{b}
    ensures multiset([a, b] + rest) == m
  {
    assert multiset([a, b] + rest) == multiset{a} + multiset{b} + multiset(rest);
  }

  lemma TieBreaksIndependence(m: multiset<Decode>, a: Decode, b: Decode)
    requires a in m && b in m && Ties(a, b) && a != b
    ensures !OrderIndependent(m)
  {
    hide Ties, Sorted;
    var rest := Arrangement(m - multiset{a} - multiset{b});
    TwoFirst(m, a, b, rest);
    TieKeepsOrder(a, b, rest);
  }

  // ---------------------------------------------------------------------
  // Merging duplicate candidates
  // ---------------------------------------------------------------------

  /** Candidates for the same signal; they differ at most in strength. */
  predicate SameSignal(a: Decode, b: Decode) {
    a.offsetMillis == b.offsetMillis && a.frequencyHz == b.frequencyHz && a.message == b.message
  }

  predicate OnePerSignal(s: seq<Decode>) {
    forall i, j | 0 <= i < j < |s| :: !SameSignal(s[i], s[j])
  }

  predicate Covered(s: seq<Decode>, c: Decode) {
    exists i | 0 <= i < |s| :: SameSignal(s[i], c) && c.snrDb <= s[i].snrDb
  }

  /** One entry per signal, each a candidate, each the strongest of its signal. */
  predicate Merged(candidates: seq<Decode>, s: seq<Decode>) {
    && OnePerSignal(s)
    && (forall d | d in s :: d in candidates)
    && (forall c | c in candidates :: Covered(s, c))
  }

  /** Index of the first entry for the signal of `c`, from `i` on, or the length. */
  function FirstSame(s: seq<Decode>, c: Decode, i: nat): (k: nat)
    requires i <= |s|
    ensures i <= k <= |s| && (k < |s| ==> SameSignal(s[k], c))
    ensures forall j | i <= j < k :: !SameSignal(s[j], c)
    decreases |s| - i
  {
    if i == |s| || SameSignal(s[i], c) then i else FirstSame(s, c, i + 1)
  }

  /** One candidate: a new signal is appended, a stronger candidate replaces its entry. */
  function MergeInto(owned: seq<Decode>, c: Decode): seq<Decode> {
    var i := FirstSame(owned, c, 0);
    if i == |owned| then owned + [c] else if c.snrDb > owned[i].snrDb then owned[i := c] else owned
  }

  function MergeAll(candidates: seq<Decode>): seq<Decode> {
    if candidates == [] then []
    else MergeInto(MergeAll(candidates[..|candidates| - 1]), candidates[|candidates| - 1])
  }

  /** The accumulation loop of the decoder. */
  method Merge(candidates: seq<Decode>) returns (owned: seq<Decode>)
    ensures owned == MergeAll(candidates) && Merged(candidates, owned)
  {
    owned := [];
    for n := 0 to |candidates|
      invariant owned == MergeAll(candidates[..n])
    {
      var c := candidates[n];
      var i := 0;
      while i < |owned| && !SameSignal(owned[i], c)
        invariant i <= |owned| && FirstSame(owned, c, i) == FirstSame(owned, c, 0)
      {
        i := i + 1;
      }
      assert candidates[..n + 1][..n] == candidates[..n];
      if i < |owned| {
        if c.snrDb > owned[i].snrDb {
          owned := owned[i := c];
        }
      } else {
        owned := owned + [c];
      }
    }
    assert candidates[..|candidates|] == candidates;
    MergeAllMerged(candidates);
  }

  lemma {:induction false} MergeAllMerged(candidates: seq<Decode>)
    ensures Merged(candidates, MergeAll(candidates))
  {
    if candidates != [] {
      var (before, c) := (candidates[..|candidates| - 1], candidates[|candidates| - 1]);
      MergeAllMerged(before);
      MergeStep(before, MergeAll(before), c, FirstSame(MergeAll(before), c, 0));
      assert candidates == before + [c];
    }
  }

  lemma MergeStep(seen: seq<Decode>, owned: seq<Decode>, c: Decode, i: nat)
    requires Merged(seen, owned) && i <= |owned|
    requires forall j | 0 <= j < i :: !SameSignal(owned[j], c)
    requires i < |owned| ==> SameSignal(owned[i], c)
    ensures Merged(seen + [c], if i == |owned| then owned + [c]
                               else if c.snrDb > owned[i].snrDb then owned[i := c] else owned)
  {
    var next := if i == |owned| then owned + [c] else if c.snrDb > owned[i].snrDb then owned[i := c] else owned;
    forall d | d in seen + [c]
      ensures Covered(next, d)
    {
      if d == c {
        assert SameSignal(next[i], c) && c.snrDb <= next[i].snrDb;
      } else {
        var j :| 0 <= j < |owned| && SameSignal(owned[j], d) && d.snrDb <= owned[j].snrDb;
        assert SameSignal(next[j], d) && d.snrDb <= next[j].snrDb;
      }
    }
  }

  /** Merging is a function of the set of candidates: the entries of any merge are exactly the strongest
      candidate of each signal. */
  lemma MergedEntries(candidates: seq<Decode>, s: seq<Decode>, d: Decode)
    requires Merged(candidates, s)
    ensures d in s <==> d in candidates && forall c | c in candidates && SameSignal(c, d) :: c.snrDb <= d.snrDb
  {
    if d in s {
      forall c | c in candidates && SameSignal(c, d)
        ensures c.snrDb <= d.snrDb
      {
        var e := Covering(candidates, s, c);
        OneEntry(s, d, e);
      }
    } else if d in candidates {
      var e := Covering(candidates, s, d);
      assert e in candidates && SameSignal(e, d);
    }
  }

  /** The entry of a merge that stands for a candidate. */
  lemma Covering(candidates: seq<Decode>, s: seq<Decode>, c: Decode) returns (e: Decode)
    requires Merged(candidates, s) && c in candidates
    ensures e in s && e in candidates && SameSignal(e, c) && c.snrDb <= e.snrDb
  {
    hide SameSignal, OnePerSignal;
    assert Covered(s, c);
    var i :| 0 <= i < |s| && SameSignal(s[i], c) && c.snrDb <= s[i].snrDb;
    e := s[i];
  }

  lemma OneEntry(s: seq<Decode>, d: Decode, e: Decode)
    requires OnePerSignal(s) && d in s && e in s && SameSignal(d, e)
    ensures d == e
  {
    var i :| 0 <= i < |s| && s[i] == d;
    var j :| 0 <= j < |s| && s[j] == e;
    assert SameSignal(e, d);
    assert i == j;
  }

  lemma CountedOnce(s: seq<Decode>, d: Decode)
    requires OnePerSignal(s)
    ensures multiset(s)[d] == if d in s then 1 else 0
  {
    if s != [] {
      assert s == [s[0]] + s[1..];
      CountedOnce(s[1..], d);
      assert OnePerSignal(s[1..]);
      forall j | 0 <= j < |s[1..]|
        ensures s[1..][j] != s[0]
      {
        assert !SameSignal(s[0], s[j + 1]);
      }
    }
  }

  /** Upstream order and repetition do not change the merged entries. */
  lemma MergedOrderIndependent(c1: seq<Decode>, s1: seq<Decode>, c2: seq<Decode>, s2: seq<Decode>)
    requires Merged(c1, s1) && Merged(c2, s2)
    requires forall c :: c in c1 <==> c in c2
    ensures multiset(s1) == multiset(s2)
  {
    forall d
      ensures multiset(s1)[d] == multiset(s2)[d]
    {
      MergedEntries(c1, s1, d);
      MergedEntries(c2, s2, d);
      CountedOnce(s1, d);
      CountedOnce(s2, d);
    }
  }

  /** Signal `a` appears among the candidates before signal `b` does. */
  predicate Earlier(candidates: seq<Decode>, a: Decode, b: Decode) {
    exists p | 0 <= p < |candidates| :: SameSignal(candidates[p], a) && forall q | 0 <= q <= p :: !SameSignal(candidates[q], b)
  }

  lemma EarlierGrows(candidates: seq<Decode>, more: seq<Decode>, a: Decode, b: Decode, a1: Decode, b1: Decode)
    requires Earlier(candidates, a, b) && SameSignal(a, a1) && SameSignal(b, b1)
    ensures Earlier(candidates + more, a1, b1)
  {
    var p :| 0 <= p < |candidates| && SameSignal(candidates[p], a) && forall q | 0 <= q <= p :: !SameSignal(candidates[q], b);
    assert SameSignal((candidates + more)[p], a1);
    forall q | 0 <= q <= p
      ensures !SameSignal((candidates + more)[q], b1)
    {
      assert (candidates + more)[q] == candidates[q];
    }
  }

  /** Merged signals stand in the order of their first appearance. */
  lemma {:induction false} MergedInOrder(candidates: seq<Decode>)
    ensures forall i, j | 0 <= i < j < |MergeAll(candidates)| ::
              Earlier(candidates, MergeAll(candidates)[i], MergeAll(candidates)[j])
  {
    if candidates != [] {
      var (before, c) := (candidates[..|candidates| - 1], candidates[|candidates| - 1]);
      var (owned, all) := (MergeAll(before), MergeAll(candidates));
      assert candidates == before + [c] && all == MergeInto(owned, c);
      MergedInOrder(before);
      MergeAllMerged(before);
      forall i, j | 0 <= i < j < |all|
        ensures Earlier(candidates, all[i], all[j])
      {
        if j < |owned| {
          EarlierGrows(before, [c], owned[i], owned[j], all[i], all[j]);
        } else {
          NewSignalLast(before, owned, c, i);
        }
      }
    }
  }

  lemma NewSignalLast(before: seq<Decode>, owned: seq<Decode>, c: Decode, i: nat)
    requires Merged(before, owned) && i < |owned| && forall k | 0 <= k < |owned| :: !SameSignal(owned[k], c)
    ensures Earlier(before + [c], owned[i], c)
  {
    assert owned[i] in before;
    var p :| 0 <= p < |before| && before[p] == owned[i];
    assert SameSignal((before + [c])[p], owned[i]);
    forall q | 0 <= q <= p
      ensures !SameSignal((before + [c])[q], c)
    {
      assert before[q] in before;
      assert Covered(owned, before[q]);
    }
  }

  /** The decoder's whole result. */
  function Decoded(candidates: seq<Decode>): seq<Decode> { Sorted(MergeAll(candidates)) }

  lemma ResultOrderIndependent(c1: seq<Decode>, c2: seq<Decode>)
    requires forall c :: c in c1 <==> c in c2
    requires NoDistinctTies(multiset(MergeAll(c1)))
    ensures Decoded(c1) == Decoded(c2)
  {
    MergeAllMerged(c1);
    MergeAllMerged(c2);
    hide Merged, NoDistinctTies, Sorted;
    MergedOrderIndependent(c1, MergeAll(c1), c2, MergeAll(c2));
    SortsAgree(MergeAll(c1), MergeAll(c2));
  }

  predicate NoStronger(c: Decode, a: Decode) { SameSignal(c, a) ==> c.snrDb <= a.snrDb }

  lemma IntoKeepsHead(owned: seq<Decode>, a: Decode, b: Decode, c: Decode)
    requires [a, b] <= owned && NoStronger(c, a) && NoStronger(c, b)
    ensures [a, b] <= MergeInto(owned, c)
  {
    assert owned[0] == a && owned[1] == b;
  }

  /** The first two candidates stay first while nothing later is stronger. */
  lemma {:induction false} HeadStays(a: Decode, b: Decode, rest: seq<Decode>)
    requires !SameSignal(a, b)
    requires forall c | c in rest :: NoStronger(c, a) && NoStronger(c, b)
    ensures [a, b] <= MergeAll([a, b] + rest)
  {
    if rest == [] {
      PairMerged(a, b);
      assert [a, b] + rest == [a, b];
    } else {
      var (before, c) := (rest[..|rest| - 1], rest[|rest| - 1]);
      HeadStays(a, b, before);
      var all := [a, b] + rest;
      assert all[..|all| - 1] == [a, b] + before && all[|all| - 1] == c;
      hide MergeInto, NoStronger, SameSignal;
      IntoKeepsHead(MergeAll([a, b] + before), a, b, c);
    }
  }

  lemma PairMerged(a: Decode, b: Decode)
    requires !SameSignal(a, b)
    ensures MergeAll([a, b]) == [a, b]
  {
    assert [a, b][..1] == [a] && [a][..0] == [];
    var none: seq<Decode> := [];
    assert MergeAll([a]) == none + [a];
  }

  /** Two tied entries that nothing outdoes, given in two orders, decode differently. */
  lemma SwappedDecodeDifferently(a: Decode, b: Decode, rest: seq<Decode>)
    requires a != b && Ties(a, b)
    requires forall c | c in rest :: NoStronger(c, a) && NoStronger(c, b)
    ensures Decoded([a, b] + rest) != Decoded([b, a] + rest)
  {
    TiesIsKeyEquality(a, b);
    OrderTotal(a, a, a);
    hide Sorted, Ties, MergeAll, TiesWith, NoStronger;
    HeadStays(a, b, rest);
    HeadStays(b, a, rest);
    FirstTied(MergeAll([a, b] + rest), a, a);
    FirstTied(MergeAll([b, a] + rest), b, a);
  }

  /** Candidates with two tied merged entries have two orders that decode differently. */
  lemma TiesDecodeDifferently(candidates: seq<Decode>, a: Decode, b: Decode) returns (s: seq<Decode>, t: seq<Decode>)
    requires a in MergeAll(candidates) && b in MergeAll(candidates) && a != b && Ties(a, b)
    ensures multiset(s) == multiset(t) == multiset(candidates) && Decoded(s) != Decoded(t)
  {
    hide Ties, MergeAll, Decoded, NoStronger;
    Strongest(candidates, a);
    Strongest(candidates, b);
    var m := multiset(candidates);
    assert a in m && b in m;
    var rest := Arrangement(m - multiset{a} - multiset{b});
    assert m - multiset{a} - multiset{b} == m - multiset{b} - multiset{a};
    TwoFirst(m, a, b, rest);
    TwoFirst(m, b, a, rest);
    RestAmong(candidates, a, b, rest);
    s, t := [a, b] + rest, [b, a] + rest;
    SwappedDecodeDifferently(a, b, rest);
  }

  lemma RestAmong(candidates: seq<Decode>, a: Decode, b: Decode, rest: seq<Decode>)
    requires multiset(rest) == multiset(candidates) - multiset{a} - multiset{b}
    ensures forall c | c in rest :: c in candidates
  {
    forall c | c in rest
      ensures c in candidates
    {
      assert c in multiset(rest) && c in multiset(candidates);
    }
  }

  lemma Strongest(candidates: seq<Decode>, a: Decode)
    requires a in MergeAll(candidates)
    ensures a in candidates && forall c | c in candidates :: NoStronger(c, a)
  {
    MergeAllMerged(candidates);
    MergedEntries(candidates, MergeAll(candidates), a);
    hide Merged, MergeAll;
  }

  /** After sorting, the first entry that ties with `k` is still the first that did before. */
  lemma FirstTied(s: seq<Decode>, first: Decode, k: Decode)
    requires s != [] && s[0] == first && Ties(k, first)
    ensures TiesWith(Sorted(s), k) != [] && TiesWith(Sorted(s), k)[0] == first
  {
    SortedIsStableSort(s);
    hide Sorted, Ties;
  }

  /** The decoder's result is independent of the upstream order exactly when no two different merged
      entries tie. */
  lemma DecodedOrderIndependentIffNoTies(candidates: seq<Decode>)
    ensures (forall s, t | multiset(s) == multiset(t) == multiset(candidates) :: Decoded(s) == Decoded(t))
            <==> NoDistinctTies(multiset(MergeAll(candidates)))
  {
    hide MergeAll, Ties, Decoded;
    if NoDistinctTies(multiset(MergeAll(candidates))) {
      forall s, t | multiset(s) == multiset(t) == multiset(candidates)
        ensures Decoded(s) == Decoded(t)
      {
        SameCandidates(candidates, s);
        SameCandidates(candidates, t);
        ResultOrderIndependent(candidates, s);
        ResultOrderIndependent(candidates, t);
      }
    } else {
      var a, b :| a in multiset(MergeAll(candidates)) && b in multiset(MergeAll(candidates)) && Ties(a, b) && a != b;
      var s, t := TiesDecodeDifferently(candidates, a, b);
    }
  }

  lemma SameCandidates(s: seq<Decode>, t: seq<Decode>)
    requires multiset(s) == multiset(t)
    ensures forall c :: c in s <==> c in t
  {
    forall c
      ensures c in s <==> c in t
    {
      assert c in s <==> c in multiset(s);
      assert c in t <==> c in multiset(t);
    }
  }

  // ---------------------------------------------------------------------
  // A tie that the decoder can receive
  // ---------------------------------------------------------------------

  const GRID_LIMIT: nat := 32_400

  /** Class of a standard directed message, from its roger bit and its 15-bit grid-or-report field. */
  function DirectedClass(roger: bool, gridOrReport: nat): Option<MessageClass> {
    if gridOrReport <= GRID_LIMIT then Some(DirectedGrid)
    else
      var code := gridOrReport - GRID_LIMIT;
      if code >= 5 then Some(if roger then RogerSignalReport else SignalReport)
      else if roger then None
      else if code == 2 then Some(Roger)
      else if code == 3 then Some(EndingRr73)
      else if code == 4 then Some(Ending73)
      else None
  }

  /** Locators and the blank field are below, four codes follow, and all larger numbers are reports; a roger goes with
      locators and reports alone. */
  lemma DirectedVerdict(roger: bool, gridOrReport: nat)
    ensures var c := DirectedClass(roger, gridOrReport);
            && (c == Some(DirectedGrid) <==> gridOrReport < 32_401)
            && (c == Some(RogerSignalReport) <==> gridOrReport > 32_404 && roger)
            && (c == Some(SignalReport) <==> gridOrReport > 32_404 && !roger)
            && (c == Some(Roger) <==> gridOrReport == 32_402 && !roger)
            && (c == Some(EndingRr73) <==> gridOrReport == 32_403 && !roger)
            && (c == Some(Ending73) <==> gridOrReport == 32_404 && !roger)
            && c != Some(GeneralCall)
  {
  }

  /** The locator whose number is `value`: two letters out of eighteen, then two digits. */
  function GridText(value: nat): string
    requires value < GRID_LIMIT
  {
    ['A' + (value / 1_800) as char, 'A' + (value / 100 % 18) as char, '0' + (value / 10 % 10) as char,
     '0' + (value % 10) as char]
  }

  /** The locator RR73 and the ending RR73 read alike and are classified differently, so two decodes of one
      text tie and the result depends on the upstream order. */
  lemma LocatorAndEndingTie(sender: Callsign, recipient: Callsign, a: Decode, b: Decode)
    requires var text := sender + " " + recipient + " " + GridText(32_373);
             && ValidText(text, MAX_TEXT)
             && a == Decode(0, 1_500, -10, Resolved(text, sender, Some(recipient), DirectedClass(false, 32_373).value))
             && b == Decode(0, 1_500, -10, Resolved(text, sender, Some(recipient), DirectedClass(false, 32_403).value))
    ensures GridText(32_373) == "RR73" && a.message.Valid() && b.message.Valid()
    ensures a.message.messageClass == DirectedGrid && b.message.messageClass == EndingRr73
    ensures Decoded([a, b]) != Decoded([b, a])
  {
    hide ValidText;
    TiesIsKeyEquality(a, b);
    hide Ties, Decoded;
    var none: seq<Decode> := [];
    assert [a, b] + none == [a, b] && [b, a] + none == [b, a];
    SwappedDecodeDifferently(a, b, none);
  }
}
