/** The strings of brackets that the program accepts, by a grammar instead of a stack. */
module BracketGrammar {
  import opened Text
  import opened BracketSolver

  datatype Kind = Round | Square | Curly | Angle
  {
    function Opener(): char {
      match this case Round => '(' case Square => '[' case Curly => '{' case Angle => '<'
    }

    function Closer(): char {
      match this case Round => ')' case Square => ']' case Curly => '}' case Angle => '>'
    }

    /** The prime that stands for the bracket in a hash. */
    function Code(): nat {
      match this case Round => 2 case Square => 3 case Curly => 5 case Angle => 7
    }
  }

  /** Properly nested brackets. */
  datatype Forest = Empty | Tree(before: Forest, kind: Kind, inside: Forest)
  {
    function Text(): string {
      match this
      case Empty => ""
      case Tree(before, kind, inside) => before.Text() + [kind.Opener()] + inside.Text() + [kind.Closer()]
    }
  }

  /** Properly nested brackets with some openers that are still to be closed. */
  datatype Prefix = Nested(forest: Forest) | Hanging(prefix: Prefix, kind: Kind, forest: Forest)
  {
    function Text(): string {
      match this
      case Nested(forest) => forest.Text()
      case Hanging(prefix, kind, forest) => prefix.Text() + [kind.Opener()] + forest.Text()
    }

    /** Where the openers stand, if the text begins at `from`. */
    function Positions(from: nat): seq<nat> {
      match this
      case Nested(_) => []
      case Hanging(prefix, _, _) => prefix.Positions(from) + [from + |prefix.Text()|]
    }

    function Kinds(): seq<Kind> {
      match this
      case Nested(_) => []
      case Hanging(prefix, kind, _) => prefix.Kinds() + [kind]
    }

    /** One more tree at the end. */
    function Attach(kind: Kind, inside: Forest): Prefix {
      match this
      case Nested(forest) => Nested(Tree(forest, kind, inside))
      case Hanging(prefix, k, forest) => Hanging(prefix, k, Tree(forest, kind, inside))
    }
  }

  /** The text stands in `s` at index i. */
  predicate Stands(s: string, i: nat, text: string) {
    i + |text| <= |s| && s[i..i + |text|] == text
  }

  lemma StandsConcat(s: string, i: nat, a: string, b: string)
    ensures Stands(s, i, a + b) <==> Stands(s, i, a) && Stands(s, i + |a|, b)
  {
    var n := |a| + |b|;
    if i + n <= |s| {
      var x, y := s[i..i + |a|], s[i + |a|..i + n];
      assert s[i..i + n] == x + y;
      assert (x + y)[..|a|] == x && (x + y)[|a|..] == y && (a + b)[..|a|] == a && (a + b)[|a|..] == b;
    }
  }

  lemma StandsChar(s: string, i: nat, c: char)
    ensures Stands(s, i, [c]) <==> i < |s| && s[i] == c
  {
  }

  lemma Regroup(a: string, b: string, c: string, d: string, e: string)
    ensures a + (b + c + d + e) == a + b + c + d + e
  {
  }

  lemma AttachText(p: Prefix, kind: Kind, inside: Forest, from: nat)
    ensures p.Attach(kind, inside).Text() == p.Text() + [kind.Opener()] + inside.Text() + [kind.Closer()]
    ensures p.Attach(kind, inside).Positions(from) == p.Positions(from)
  {
    if p.Hanging? {
      var head := p.prefix.Text() + [p.kind.Opener()];
      var tree := Tree(p.forest, kind, inside);
      assert p.Attach(kind, inside) == Hanging(p.prefix, p.kind, tree);
      assert p.Attach(kind, inside).Text() == head + tree.Text();
      assert p.Text() == head + p.forest.Text();
      assert tree.Text() == p.forest.Text() + [kind.Opener()] + inside.Text() + [kind.Closer()];
      hide Prefix.Text, Forest.Text, Kind.Opener, Kind.Closer;
      Regroup(head, p.forest.Text(), [kind.Opener()], inside.Text(), [kind.Closer()]);
    }
  }

  lemma KindOf(c: char) returns (kind: Kind)
    requires IsOpen(c)
    ensures kind.Opener() == c
  {
    kind := if c == '(' then Round else if c == '[' then Square else if c == '{' then Curly else Angle;
  }

  lemma MatchesKind(kind: Kind, c: char)
    ensures IsOpen(kind.Opener()) && !IsOpen(kind.Closer())
    ensures IsMatch(kind.Opener(), c) <==> c == kind.Closer()
  {
  }

  // ---- From the stack to the grammar --------------------------------------------

  lemma LastHanging(p: Prefix, from: nat)
    ensures p.Positions(from) == [] <==> p.Nested?
    ensures p.Hanging? ==>
              && p.Positions(from)[|p.Positions(from)| - 1] == from + |p.prefix.Text()|
              && p.Positions(from)[..|p.Positions(from)| - 1] == p.prefix.Positions(from)
              && |p.prefix.Text()| < |p.Text()| && p.Text()[|p.prefix.Text()|] == p.kind.Opener()
  {
  }

  /** Whatever the reduction accepts is such a prefix, and its residue are the openers still to be closed. */
  lemma {:induction false} ReducedIsPrefix(s: string, l: nat, r: nat) returns (p: Prefix)
    requires 1 <= l <= r + 1 && r < |s| && Reduce(s, l, r).Some?
    ensures Stands(s, l, p.Text()) && |p.Text()| == r + 1 - l && p.Positions(l) == Reduce(s, l, r).value
    decreases r
  {
    if r < l {
      p := Nested(Empty);
    } else {
      ReduceStep(s, l, r);
      hide Reduce, Stands, IsOpen, IsMatch, Prefix.Text, Prefix.Positions;
      var q := ReducedIsPrefix(s, l, r - 1);
      if IsOpen(s[r]) {
        p := OneOpener(s, l, r, q);
      } else {
        p := OneCloser(s, l, r, q);
      }
    }
  }

  lemma ReduceStep(s: string, l: nat, r: nat)
    requires 1 <= l <= r < |s| && Reduce(s, l, r).Some?
    ensures var before := Reduce(s, l, r - 1);
            && before.Some?
            && var st := before.value;
               if IsOpen(s[r]) then Reduce(s, l, r).value == st + [r]
               else st != [] && IsMatch(s[st[|st| - 1]], s[r]) && Reduce(s, l, r).value == st[..|st| - 1]
  {
  }

  lemma OneOpener(s: string, l: nat, r: nat, q: Prefix) returns (p: Prefix)
    requires 1 <= l <= r < |s| && IsOpen(s[r]) && Stands(s, l, q.Text()) && |q.Text()| == r - l
    ensures Stands(s, l, p.Text()) && |p.Text()| == r + 1 - l && p.Positions(l) == q.Positions(l) + [r]
  {
    var kind := KindOf(s[r]);
    p := Hanging(q, kind, Empty);
    assert q.Text() + [kind.Opener()] + "" == q.Text() + [kind.Opener()];
    hide IsOpen;
    StandsConcat(s, l, q.Text(), [kind.Opener()]);
    StandsChar(s, r, kind.Opener());
  }

  lemma OneCloser(s: string, l: nat, r: nat, q: Prefix) returns (p: Prefix)
    requires 1 <= l <= r < |s| && Stands(s, l, q.Text()) && |q.Text()| == r - l
    requires var st := q.Positions(l); st != [] && st[|st| - 1] < |s| && IsMatch(s[st[|st| - 1]], s[r])
    ensures Stands(s, l, p.Text()) && |p.Text()| == r + 1 - l
    ensures p.Positions(l) == q.Positions(l)[..|q.Positions(l)| - 1]
  {
    LastHanging(q, l);
    var kind, inside := q.kind, q.forest;
    p := q.prefix.Attach(kind, inside);
    AttachText(q.prefix, kind, inside, l);
    assert p.Text() == q.Text() + [kind.Closer()];
    MatchesKind(kind, s[r]);
    assert s[l + |q.prefix.Text()|] == s[l..r][|q.prefix.Text()|];
    hide IsMatch;
    StandsConcat(s, l, q.Text(), [kind.Closer()]);
    StandsChar(s, r, kind.Closer());
  }

  // ---- From the grammar to the stack --------------------------------------------

  lemma ReduceOpens(s: string, l: nat, r: nat, st: seq<nat>, kind: Kind)
    requires 1 <= l <= r < |s| && Reduce(s, l, r - 1) == Some(st) && s[r] == kind.Opener()
    ensures Reduce(s, l, r) == Some(st + [r])
  {
    MatchesKind(kind, kind.Closer());
  }

  lemma ReduceCloses(s: string, l: nat, r: nat, st: seq<nat>, at: nat, kind: Kind)
    requires 1 <= l <= r < |s| && Reduce(s, l, r - 1) == Some(st + [at])
    requires at < |s| && s[at] == kind.Opener() && s[r] == kind.Closer()
    ensures Reduce(s, l, r) == Some(st)
  {
    MatchesKind(kind, kind.Closer());
    assert (st + [at])[..|st|] == st;
  }

  /** Nested brackets leave the stack as it was. */
  lemma {:induction false} ForestReduced(s: string, l: nat, i: nat, f: Forest, st: seq<nat>)
    requires 1 <= l <= i <= |s| && Stands(s, i, f.Text()) && Reduce(s, l, i - 1) == Some(st)
    ensures Reduce(s, l, i + |f.Text()| - 1) == Some(st)
    decreases f
  {
    if f.Tree? {
      var before, inside, o, c := f.before.Text(), f.inside.Text(), [f.kind.Opener()], [f.kind.Closer()];
      StandsConcat(s, i, before + o + inside, c);
      StandsConcat(s, i, before + o, inside);
      StandsConcat(s, i, before, o);
      var open, last := i + |before|, i + |before| + 1 + |inside|;
      StandsChar(s, open, f.kind.Opener());
      StandsChar(s, last, f.kind.Closer());
      hide Reduce, Stands;
      ForestReduced(s, l, i, f.before, st);
      ReduceOpens(s, l, open, st, f.kind);
      ForestReduced(s, l, open + 1, f.inside, st + [open]);
      ReduceCloses(s, l, last, st, open, f.kind);
    }
  }

  lemma StandsHanging(s: string, l: nat, p: Prefix)
    requires p.Hanging? && Stands(s, l, p.Text())
    ensures var open := l + |p.prefix.Text()|;
            && Stands(s, l, p.prefix.Text()) && open < |s| && s[open] == p.kind.Opener()
            && Stands(s, open + 1, p.forest.Text()) && |p.Text()| == |p.prefix.Text()| + 1 + |p.forest.Text()|
  {
    var before, o, forest := p.prefix.Text(), [p.kind.Opener()], p.forest.Text();
    assert p.Text() == before + o + forest;
    hide Prefix.Text, Forest.Text, Kind.Opener;
    StandsConcat(s, l, before + o, forest);
    StandsConcat(s, l, before, o);
    StandsChar(s, l + |before|, p.kind.Opener());
  }

  lemma {:induction false} PrefixReduced(s: string, l: nat, p: Prefix)
    requires 1 <= l <= |s| && Stands(s, l, p.Text())
    ensures Reduce(s, l, l + |p.Text()| - 1) == Some(p.Positions(l))
    decreases p
  {
    if p.Nested? {
      assert Reduce(s, l, l - 1) == Some([]);
      ForestReduced(s, l, l, p.forest, []);
    } else {
      var open := l + |p.prefix.Text()|;
      StandsHanging(s, l, p);
      assert p.Positions(l) == p.prefix.Positions(l) + [open];
      hide Reduce, Stands, Prefix.Text, Forest.Text, Kind.Opener;
      PrefixReduced(s, l, p.prefix);
      ReduceOpens(s, l, open, p.prefix.Positions(l), p.kind);
      ForestReduced(s, l, open + 1, p.forest, p.prefix.Positions(l) + [open]);
    }
  }

  /** A query succeeds exactly if its text can still be completed to properly nested brackets. */
  lemma AcceptedExactly(s: string, l: nat, r: nat)
    requires 1 <= l <= r < |s|
    ensures Reduce(s, l, r).Some? <==> exists p: Prefix :: p.Text() == s[l..r + 1]
  {
    if Reduce(s, l, r).Some? {
      var p := ReducedIsPrefix(s, l, r);
      assert p.Text() == s[l..r + 1];
    }
    if p: Prefix :| p.Text() == s[l..r + 1] {
      PrefixReduced(s, l, p);
    }
  }

  // ---- What is counted ------------------------------------------------------------

  function CodesOf(kinds: seq<Kind>): (codes: seq<nat>)
    ensures |codes| == |kinds| && forall k | 0 <= k < |kinds| :: codes[k] == kinds[k].Code()
  {
    seq(|kinds|, k requires 0 <= k < |kinds| => kinds[k].Code())
  }

  lemma {:induction false} OpenersInPlace(s: string, l: nat, p: Prefix)
    requires Stands(s, l, p.Text())
    ensures var ps, ks := p.Positions(l), p.Kinds();
            |ps| == |ks| && forall k | 0 <= k < |ps| :: ps[k] < |s| && s[ps[k]] == ks[k].Opener()
    decreases p
  {
    if p.Hanging? {
      StandsHanging(s, l, p);
      OpenersInPlace(s, l, p.prefix);
    }
  }

  lemma CodeOfKind(kind: Kind)
    ensures CodeOf(kind.Opener()) == kind.Code()
  {
  }

  /** The counted hash is that of the openers still to be closed, a prime for each kind, and of nothing else. */
  lemma HashOfOpeners(s: string, q: Query, p: Prefix)
    requires 1 <= q.l <= q.r < |s| && p.Text() == s[q.l..q.r + 1]
    ensures Answer(s, q) == Some(HashOf(CodesOf(p.Kinds())))
  {
    PrefixReduced(s, q.l, p);
    OpenersInPlace(s, q.l, p);
    var residue := p.Positions(q.l);
    forall k | 0 <= k < |residue| ensures CodeOf(s[residue[k]]) == p.Kinds()[k].Code() {
      CodeOfKind(p.Kinds()[k]);
    }
    hide Reduce, HashOf, CodeOf;
    assert Codes(s, residue) == CodesOf(p.Kinds());
  }
}
