/** The command normalisation both routers apply before looking a command up:
    `" ".join(text.lower().split())`. Lower-casing is modelled for ASCII
    letters; splitting uses Python's whitespace set for `str.split()`. */
module TextNormalize {

  /** The characters `str.split()` with no argument treats as separators. */
  predicate IsSpace(c: char) {
    || c == ' '
    || ('\t' <= c <= '\r')
    || ('\U{1C}' <= c <= '\U{1F}')
    || c == '\U{85}' || c == '\U{A0}' || c == '\U{1680}'
    || ('\U{2000}' <= c <= '\U{200A}')
    || c == '\U{2028}' || c == '\U{2029}' || c == '\U{202F}' || c == '\U{205F}' || c == '\U{3000}'
  }

  function LowerChar(c: char): (d: char)
    ensures IsSpace(d) <==> IsSpace(c)
    ensures !('A' <= d <= 'Z')
  {
    if 'A' <= c <= 'Z' then (c as int - 'A' as int + 'a' as int) as char else c
  }

  /** `str.lower()` on ASCII letters. */
  function Lower(s: string): (r: string)
    ensures |r| == |s|
    ensures forall i :: 0 <= i < |s| ==> r[i] == LowerChar(s[i])
  {
    seq(|s|, i requires 0 <= i < |s| => LowerChar(s[i]))
  }

  predicate NoSpace(w: string) {
    forall i :: 0 <= i < |w| ==> !IsSpace(w[i])
  }

  /** A token `str.split()` can produce: non-empty, without separators. */
  predicate IsWord(w: string) {
    |w| > 0 && NoSpace(w)
  }

  /** Length of the leading run of non-separator characters. */
  function WordLen(s: string): (n: nat)
    ensures n <= |s|
    ensures NoSpace(s[..n])
    ensures n < |s| ==> IsSpace(s[n])
    decreases |s|
  {
    if |s| == 0 || IsSpace(s[0]) then 0
    else
      var m := WordLen(s[1..]);
      assert s[..1 + m] == [s[0]] + s[1..][..m];
      1 + m
  }

  /** `str.split()`: the maximal runs of non-separators, in order. */
  function Words(s: string): (ws: seq<string>)
    ensures forall i :: 0 <= i < |ws| ==> IsWord(ws[i])
    decreases |s|
  {
    if |s| == 0 then []
    else if IsSpace(s[0]) then Words(s[1..])
    else
      var n := WordLen(s);
      [s[..n]] + Words(s[n..])
  }

  /** `" ".join(ws)`. */
  function Join(ws: seq<string>): string
    decreases |ws|
  {
    if |ws| == 0 then ""
    else if |ws| == 1 then ws[0]
    else ws[0] + " " + Join(ws[1..])
  }

  /** The normalised form of a command. */
  function Normalize(text: string): string {
    Join(Words(Lower(text)))
  }

  // ---------------------------------------------------------------------------
  // Properties of the normaliser
  // ---------------------------------------------------------------------------

  predicate LowerFixed(s: string) {
    forall i :: 0 <= i < |s| ==> LowerChar(s[i]) == s[i]
  }

  /** Words taken from lower-case text are lower-case. */
  lemma {:induction false} WordsKeepLower(s: string)
    requires LowerFixed(s)
    ensures forall i :: 0 <= i < |Words(s)| ==> LowerFixed(Words(s)[i])
    decreases |s|
  {
    if |s| == 0 {
    } else if IsSpace(s[0]) {
      WordsKeepLower(s[1..]);
    } else {
      var n := WordLen(s);
      WordsKeepLower(s[n..]);
      assert Words(s) == [s[..n]] + Words(s[n..]);
    }
  }

  /** Joining lower-case words with spaces gives lower-case text. */
  lemma {:induction false} JoinKeepsLower(ws: seq<string>)
    requires forall i :: 0 <= i < |ws| ==> LowerFixed(ws[i])
    ensures LowerFixed(Join(ws))
    decreases |ws|
  {
    if |ws| >= 2 {
      JoinKeepsLower(ws[1..]);
      var j := Join(ws[1..]);
      assert Join(ws) == ws[0] + " " + j;
      forall i | 0 <= i < |Join(ws)|
        ensures LowerChar(Join(ws)[i]) == Join(ws)[i]
      {
        if i < |ws[0]| {
          assert Join(ws)[i] == ws[0][i];
        } else if i == |ws[0]| {
          assert Join(ws)[i] == ' ';
        } else {
          assert Join(ws)[i] == j[i - |ws[0]| - 1];
        }
      }
    }
  }

  /** A non-empty run of lower-case ASCII letters is a word and lower-case. */
  lemma LowercaseWord(w: string)
    requires |w| > 0 && forall i :: 0 <= i < |w| ==> 'a' <= w[i] <= 'z'
    ensures IsWord(w) && LowerFixed(w)
  {
  }

  lemma LowerOfLowerFixed(s: string)
    requires LowerFixed(s)
    ensures Lower(s) == s
  {
  }

  /** The run length of a word followed by a separator (or nothing) is the
      word's length. */
  lemma {:induction false} WordLenOfWord(w: string, t: string)
    requires NoSpace(w)
    requires |t| == 0 || IsSpace(t[0])
    ensures WordLen(w + t) == |w|
    decreases |w|
  {
    if |w| > 0 {
      assert (w + t)[1..] == w[1..] + t;
      WordLenOfWord(w[1..], t);
    } else {
      assert w + t == t;
    }
  }

  /** Splitting joined words gives the words back. */
  lemma {:induction false} WordsOfJoin(ws: seq<string>)
    requires forall i :: 0 <= i < |ws| ==> IsWord(ws[i])
    ensures Words(Join(ws)) == ws
    decreases |ws|
  {
    if |ws| == 0 {
    } else if |ws| == 1 {
      var w := ws[0];
      WordLenOfWord(w, "");
      assert w + "" == w;
      assert w[..|w|] == w;
      assert w[|w|..] == "";
    } else {
      var w := ws[0];
      var rest := Join(ws[1..]);
      var s := w + " " + rest;
      assert Join(ws) == s;
      WordLenOfWord(w, " " + rest);
      assert s == w + (" " + rest);
      assert s[..|w|] == w;
      assert s[|w|..] == " " + rest;
      assert (" " + rest)[1..] == rest;
      WordsOfJoin(ws[1..]);
    }
  }

  /** Normalising twice is normalising once: the result depends only on the
      normalised text, so extra whitespace and upper case never matter. */
  lemma NormalizeIdempotent(text: string)
    ensures Normalize(Normalize(text)) == Normalize(text)
  {
    var ws := Words(Lower(text));
    WordsKeepLower(Lower(text));
    JoinKeepsLower(ws);
    LowerOfLowerFixed(Join(ws));
    WordsOfJoin(ws);
  }

  /** Upper case never changes the normalised form. */
  lemma NormalizeIgnoresCase(text: string)
    ensures Normalize(Lower(text)) == Normalize(text)
  {
    assert Lower(Lower(text)) == Lower(text);
  }

  /** Splitting the normalised form gives back exactly the words of the
      lower-cased text: normalising loses nothing but case and spacing. */
  lemma NormalizedWords(text: string)
    ensures Words(Normalize(text)) == Words(Lower(text))
  {
    WordsOfJoin(Words(Lower(text)));
  }
}
