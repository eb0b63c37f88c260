/** String operations of the Go standard library that the modelled code relies on. */
module Text {

  /** `unicode.IsSpace`. */
  predicate IsSpace(c: char) {
    || '\t' <= c <= '\r' || c == ' ' || c == '\U{85}' || c == '\U{a0}' || c == '\U{1680}' || '\U{2000}' <= c <= '\U{200a}'
    || c == '\U{2028}' || c == '\U{2029}' || c == '\U{202f}' || c == '\U{205f}' || c == '\U{3000}'
  }

  /** The first position from `i` on that is no white space. */
  function SkipSpace(s: string, i: nat): (r: nat)
    requires i <= |s|
    ensures i <= r <= |s| && (r < |s| ==> !IsSpace(s[r]))
    decreases |s| - i
  {
    if i < |s| && IsSpace(s[i]) then SkipSpace(s, i + 1) else i
  }

  /** The last end between `i` and `j` that is not preceded by white space. */
  function DropSpace(s: string, i: nat, j: nat): (r: nat)
    requires i <= j <= |s|
    ensures i <= r <= j && (i < r ==> !IsSpace(s[r - 1]))
  {
    if i < j && IsSpace(s[j - 1]) then DropSpace(s, i, j - 1) else j
  }

  /** `strings.TrimSpace`. */
  function TrimSpace(s: string): (r: string)
    ensures r != "" ==> !IsSpace(r[0]) && !IsSpace(r[|r| - 1])
    ensures |r| <= |s|
  {
    var i := SkipSpace(s, 0);
    s[i..DropSpace(s, i, |s|)]
  }

  predicate Blank(s: string) {
    TrimSpace(s) == ""
  }

  /** A text that starts with a visible character is not blank. */
  lemma VisibleStart(s: string)
    requires s != "" && !IsSpace(s[0])
    ensures !Blank(s)
  {
    VisibleKept(s, |s|);
  }

  lemma {:induction false} VisibleKept(s: string, j: nat)
    requires 0 < j <= |s| && !IsSpace(s[0])
    ensures DropSpace(s, 0, j) > 0
  {
    if j > 1 && IsSpace(s[j - 1]) {
      VisibleKept(s, j - 1);
    }
  }

  lemma BlankEmpty()
    ensures TrimSpace("") == "" && Blank("")
  {
  }

  lemma TrimFixed(s: string)
    requires s != "" ==> !IsSpace(s[0]) && !IsSpace(s[|s| - 1])
    ensures TrimSpace(s) == s
  {
  }

  /** Trimming twice is trimming once. */
  lemma TrimIdempotent(s: string)
    ensures TrimSpace(TrimSpace(s)) == TrimSpace(s)
  {
    TrimFixed(TrimSpace(s));
  }

  /** `strings.ToLower`, for ASCII letters. */
  function ToLower(s: string): (r: string)
    ensures |r| == |s|
  {
    seq(|s|, i requires 0 <= i < |s| => if 'A' <= s[i] <= 'Z' then (s[i] as int + 32) as char else s[i])
  }

  /** Decimal notation. */
  function Digits(n: nat): string {
    if n < 10 then [('0' as int + n) as char] else Digits(n / 10) + [('0' as int + n % 10) as char]
  }

  /** `strings.HasPrefix`. */
  predicate HasPrefix(s: string, prefix: string) {
    |prefix| <= |s| && s[..|prefix|] == prefix
  }

  /** `strings.HasSuffix`. */
  predicate HasSuffix(s: string, suffix: string) {
    |suffix| <= |s| && s[|s| - |suffix|..] == suffix
  }

  /** `strings.Builder`: the text accumulated from a list of writes. */
  function Join(pieces: seq<string>): string {
    if pieces == [] then "" else Join(pieces[..|pieces| - 1]) + pieces[|pieces| - 1]
  }

  lemma JoinOne(text: string)
    ensures Join([]) == "" && Join([text]) == text
  {
    assert [text][..0] == [];
  }

  lemma JoinSnoc(pieces: seq<string>, p: string)
    ensures Join(pieces + [p]) == Join(pieces) + p
  {
    assert (pieces + [p])[..|pieces|] == pieces;
  }

  lemma {:induction false} JoinConcat(a: seq<string>, b: seq<string>)
    ensures Join(a + b) == Join(a) + Join(b)
  {
    if b == [] {
      assert a + b == a;
    } else {
      var front, last := b[..|b| - 1], b[|b| - 1];
      assert a + b == (a + front) + [last];
      JoinSnoc(a + front, last);
      JoinConcat(a, front);
    }
  }

  // ----- Lists of identifiers -----

  /** The distinct non-blank identifiers of a list, trimmed, in order of first appearance. */
  function UniqueTrimmed(values: seq<string>): (r: seq<string>)
    ensures forall x | x in r :: x != "" && TrimSpace(x) == x
    ensures forall i, j | 0 <= i < j < |r| :: r[i] != r[j]
  {
    if values == [] then []
    else
      var before := UniqueTrimmed(values[..|values| - 1]);
      var x := TrimSpace(values[|values| - 1]);
      TrimIdempotent(values[|values| - 1]);
      if x == "" || x in before then before else before + [x]
  }

  predicate Mentions(values: seq<string>, x: string) {
    exists v :: v in values && TrimSpace(v) == x
  }

  lemma MentionsSnoc(values: seq<string>, v: string, x: string)
    ensures Mentions(values + [v], x) <==> Mentions(values, x) || TrimSpace(v) == x
  {
    hide TrimSpace;
    assert v in values + [v];
    if Mentions(values, x) {
      var u :| u in values && TrimSpace(u) == x;
      assert u in values + [v];
    }
  }

  lemma UniqueTrimmedSnoc(values: seq<string>, v: string)
    ensures UniqueTrimmed(values + [v]) ==
      if TrimSpace(v) == "" || TrimSpace(v) in UniqueTrimmed(values) then UniqueTrimmed(values)
      else UniqueTrimmed(values) + [TrimSpace(v)]
  {
    hide TrimSpace;
    assert (values + [v])[..|values|] == values;
  }

  /** Exactly the trimmed non-blank values are listed. */
  lemma {:induction false} UniqueTrimmedMembers(values: seq<string>, x: string)
    ensures x in UniqueTrimmed(values) <==> x != "" && Mentions(values, x)
  {
    if values != [] {
      hide TrimSpace, UniqueTrimmed, Mentions;
      var front, v := values[..|values| - 1], values[|values| - 1];
      assert front + [v] == values;
      UniqueTrimmedMembers(front, x);
      MentionsSnoc(front, v, x);
      UniqueTrimmedSnoc(front, v);
    }
  }

  /** The loop that collects them. */
  method CollectUnique(values: seq<string>) returns (r: seq<string>)
    ensures r == UniqueTrimmed(values)
  {
    var seen: set<string> := {};
    r := [];
    for i := 0 to |values|
      invariant r == UniqueTrimmed(values[..i]) && forall x :: x in seen <==> x in r
    {
      var x := TrimSpace(values[i]);
      assert values[..i + 1][..i] == values[..i];
      if x != "" && x !in seen {
        seen := seen + {x};
        r := r + [x];
      }
    }
    assert values[..|values|] == values;
  }
}
