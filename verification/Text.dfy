/** The few std::string operations that the modelled code relies on. */
module Text {

  datatype Option<+T> = None | Some(value: T)

  /** `pat` stands in `s` at index `i`. */
  predicate OccursAt(s: string, pat: string, i: nat) {
    i <= |s| && pat <= s[i..]
  }

  /** std::string::find(pat, from). */
  function Find(s: string, pat: string, from: nat): (r: Option<nat>)
    ensures r.Some? ==> from <= r.value && OccursAt(s, pat, r.value)
    ensures forall j | from <= j && OccursAt(s, pat, j) :: r.Some? && r.value <= j
    decreases |s| - from
  {
    if from + |pat| > |s| then None
    else if OccursAt(s, pat, from) then Some(from)
    else if from == |s| then None
    else Find(s, pat, from + 1)
  }

  predicate Contains(s: string, pat: string) {
    Find(s, pat, 0).Some?
  }

  predicate StartsWith(s: string, pat: string) {
    pat <= s
  }

  /** Bytes that arrive later do not move a match that is already complete. */
  lemma FindExtends(s: string, x: string, pat: string)
    requires Find(s, pat, 0).Some?
    ensures Find(s + x, pat, 0) == Find(s, pat, 0)
  {
    var i := Find(s, pat, 0).value;
    assert (s + x)[i..i + |pat|] == s[i..i + |pat|];
    assert OccursAt(s + x, pat, i);
    var k := Find(s + x, pat, 0).value;
    assert (s + x)[k..k + |pat|] == s[k..k + |pat|];
    assert OccursAt(s, pat, k);
  }

  lemma OccursInSuffix(s: string, pat: string, from: nat, k: nat)
    requires from <= |s|
    ensures OccursAt(s[from..], pat, k) <==> OccursAt(s, pat, from + k)
  {
    if from + k + |pat| <= |s| {
      assert s[from..][k..k + |pat|] == s[from + k..from + k + |pat|];
    }
  }

  /** Searching from an index is searching the rest. */
  lemma FindInSuffix(s: string, pat: string, from: nat)
    requires from <= |s|
    ensures Find(s, pat, from) ==
            match Find(s[from..], pat, 0) { case None => None case Some(k) => Some(from + k) }
  {
    var here, there := Find(s, pat, from), Find(s[from..], pat, 0);
    if there.Some? {
      OccursInSuffix(s, pat, from, there.value);
    }
    if here.Some? {
      OccursInSuffix(s, pat, from, here.value - from);
    }
  }

  /** A two-character pattern, character by character. */
  lemma OccursPair(s: string, a: char, b: char, i: nat)
    ensures OccursAt(s, [a, b], i) <==> i + 1 < |s| && s[i] == a && s[i + 1] == b
  {
    if i + 2 <= |s| {
      assert s[i..i + 2] == [s[i], s[i + 1]];
    }
  }

  function Concat(pieces: seq<string>): (r: string) {
    if pieces == [] then "" else pieces[0] + Concat(pieces[1..])
  }

  /** erase(remove(begin, end, c), end). */
  function RemoveChar(s: string, c: char): (r: string)
    ensures c !in r
    ensures c !in s ==> r == s
  {
    if s == "" then ""
    else (if s[0] == c then "" else [s[0]]) + RemoveChar(s[1..], c)
  }

  lemma {:induction false} RemoveCharConcat(s: string, t: string, c: char)
    ensures RemoveChar(s + t, c) == RemoveChar(s, c) + RemoveChar(t, c)
  {
    if s == "" {
      assert s + t == t;
    } else {
      assert (s + t)[1..] == s[1..] + t;
      RemoveCharConcat(s[1..], t, c);
    }
  }

  /** Drops every leading occurrence of `c`. */
  function StripLeading(s: string, c: char): (r: string)
    ensures |r| <= |s| && r == s[|s| - |r|..]
    ensures r != "" ==> r[0] != c
    ensures forall k | 0 <= k < |s| - |r| :: s[k] == c
  {
    if s != "" && s[0] == c then StripLeading(s[1..], c) else s
  }

  function ToLower(c: char): char {
    if 'A' <= c <= 'Z' then ((c as int) + 32) as char else c
  }

  function Lower(s: string): (r: string)
    ensures |r| == |s|
    ensures forall i | 0 <= i < |s| :: r[i] == ToLower(s[i])
  {
    seq(|s|, i requires 0 <= i < |s| => ToLower(s[i]))
  }
}
