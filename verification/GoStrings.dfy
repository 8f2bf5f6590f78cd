/** The functions of Go's `strings` package that the modelled code uses, with the laws the proofs need. */
module GoStrings {
  /** White space as Go's unicode.IsSpace has it. */
  predicate IsSpace(c: char) {
    || c == ' ' || '\t' <= c <= '\r' || c == '\U{85}' || c == '\U{A0}' || c == '\U{1680}'
    || '\U{2000}' <= c <= '\U{200A}' || c == '\U{2028}' || c == '\U{2029}' || c == '\U{202F}'
    || c == '\U{205F}' || c == '\U{3000}'
  }

  function TrimLeft(s: string): string {
    if s != "" && IsSpace(s[0]) then TrimLeft(s[1..]) else s
  }

  function TrimRight(s: string): string {
    if s != "" && IsSpace(s[|s| - 1]) then TrimRight(s[..|s| - 1]) else s
  }

  function TrimSpace(s: string): string {
    TrimRight(TrimLeft(s))
  }

  function TrimPrefix(s: string, prefix: string): string {
    if prefix <= s then s[|prefix|..] else s
  }

  function IndexOf(s: string, c: char): (i: nat)
    ensures i <= |s| && c !in s[..i] && (i < |s| ==> s[i] == c)
  {
    if s == "" || s[0] == c then 0
    else
      var i := 1 + IndexOf(s[1..], c);
      assert s[..i] == [s[0]] + s[1..][..i - 1];
      i
  }

  /** A word: not empty and without white space. */
  predicate IsWord(w: string) {
    w != "" && forall k | 0 <= k < |w| :: !IsSpace(w[k])
  }

  /** The length of the run of non-space characters at the start. */
  function WordLength(s: string): (n: nat)
    ensures n <= |s| && (forall k | 0 <= k < n :: !IsSpace(s[k])) && (n < |s| ==> IsSpace(s[n]))
  {
    if s == "" || IsSpace(s[0]) then 0 else 1 + WordLength(s[1..])
  }

  function Fields(s: string): (ws: seq<string>)
    ensures forall w | w in ws :: IsWord(w)
    decreases |s|
  {
    if s == "" then []
    else if IsSpace(s[0]) then Fields(s[1..])
    else [s[..WordLength(s)]] + Fields(s[WordLength(s)..])
  }

  function Join(ws: seq<string>, sep: string): string {
    if ws == [] then "" else if |ws| == 1 then ws[0] else ws[0] + sep + Join(ws[1..], sep)
  }

  function Split(s: string, sep: char): seq<string>
    decreases |s|
  {
    var i := IndexOf(s, sep);
    if i == |s| then [s] else [s[..i]] + Split(s[i + 1..], sep)
  }

  /** At most n pieces; the last one is the unsplit remainder. */
  function SplitN(s: string, sep: char, n: nat): (pieces: seq<string>)
    requires n > 0
    ensures 0 < |pieces| <= n
    decreases n
  {
    var i := IndexOf(s, sep);
    if n == 1 || i == |s| then [s] else [s[..i]] + SplitN(s[i + 1..], sep, n - 1)
  }

  // ---------------------------------------------------------------------------------------------------------

  lemma WordLengthAt(w: string, rest: string)
    requires IsWord(w) && (rest != "" ==> IsSpace(rest[0]))
    ensures WordLength(w + rest) == |w|
  {
    assert forall k | 0 <= k < |w| :: (w + rest)[k] == w[k];
    assert rest != "" ==> (w + rest)[|w|] == rest[0];
  }

  lemma FieldsOfWord(w: string, rest: string)
    requires IsWord(w) && (rest != "" ==> IsSpace(rest[0]))
    ensures Fields(w + rest) == [w] + Fields(rest)
  {
    WordLengthAt(w, rest);
    assert (w + rest)[..|w|] == w && (w + rest)[|w|..] == rest;
    assert (w + rest)[0] == w[0];
  }

  /** Words survive being joined with blanks and split again. */
  lemma {:induction false} FieldsOfJoin(ws: seq<string>)
    requires forall w | w in ws :: IsWord(w)
    ensures Fields(Join(ws, " ")) == ws
    decreases |ws|
  {
    if |ws| == 1 {
      FieldsOfWord(ws[0], "");
      assert ws[0] + "" == ws[0] && [ws[0]] + [] == ws;
    } else if ws != [] {
      var rest := Join(ws[1..], " ");
      FieldsOfJoin(ws[1..]);
      FieldsOfWord(ws[0], " " + rest);
      assert ws[0] + " " + rest == ws[0] + (" " + rest);
      assert (" " + rest)[1..] == rest;
    }
  }

  lemma {:induction false} FieldsNonEmpty(s: string)
    requires s != "" && !IsSpace(s[0])
    ensures Fields(s) != []
  {
    assert Fields(s)[0] == s[..WordLength(s)];
  }

  /** Trimming on the right stops at a kept prefix. */
  lemma {:induction false} TrimRightAppend(a: string, b: string)
    requires b != "" && !IsSpace(b[0])
    ensures TrimRight(a + b) == a + TrimRight(b)
    ensures TrimRight(b) != "" && TrimRight(b)[0] == b[0]
    decreases |b|
  {
    assert (a + b)[|a + b| - 1] == b[|b| - 1];
    if IsSpace(b[|b| - 1]) {
      assert (a + b)[..|a + b| - 1] == a + b[..|b| - 1];
      TrimRightAppend(a, b[..|b| - 1]);
    }
  }

  predicate IsBlank(b: string) {
    b == "" || b == " "
  }

  lemma TrimLeftBlank(blank: string, s: string)
    requires IsBlank(blank) && s != "" && !IsSpace(s[0])
    ensures TrimLeft(blank + s) == s
  {
    if blank == "" {
      assert blank + s == s;
    } else {
      assert (blank + s)[1..] == s;
    }
  }

  lemma TrimRightBlank(s: string, blank: string)
    requires IsBlank(blank) && s != "" && !IsSpace(s[|s| - 1])
    ensures TrimRight(s + blank) == s
  {
    if blank == "" {
      assert s + blank == s;
    } else {
      assert (s + blank)[..|s|] == s;
    }
  }

  lemma TrimWord(before: string, w: string, after: string)
    requires IsBlank(before) && IsBlank(after) && IsWord(w)
    ensures TrimSpace(before + (w + after)) == w
  {
    assert (w + after)[0] == w[0];
    TrimLeftBlank(before, w + after);
    TrimRightBlank(w, after);
  }

  lemma {:induction false} IndexOfAppend(a: string, b: string, c: char)
    requires c !in a
    ensures IndexOf(a + b, c) == |a| + IndexOf(b, c)
  {
    if a == "" {
      assert a + b == b;
    } else {
      assert (a + b)[1..] == a[1..] + b;
      IndexOfAppend(a[1..], b, c);
    }
  }
}
