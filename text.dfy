/**
 * The string helpers the three programs share: whitespace, trimming,
 * ASCII case folding, prefix tests, and the two ways the programs cut a
 * text into words (Python's `str.split()` and JavaScript's
 * `split(/\s+/)`).
 */
module Text {

  /** The ASCII whitespace characters that Python's `str.split`/`str.strip`
      and JavaScript's `trim` and `\s` all recognise. */
  predicate IsSpace(c: char) {
    c == ' ' || c == '\t' || c == '\n' || c == '\r' || c == '\U{B}' || c == '\U{C}'
  }

  /** Every character of `s` is whitespace (this includes the empty string). */
  predicate IsBlank(s: string) {
    forall i :: 0 <= i < |s| ==> IsSpace(s[i])
  }

  /** A non-empty run of non-whitespace characters. */
  predicate IsWord(w: string) {
    w != [] && forall i :: 0 <= i < |w| ==> !IsSpace(w[i])
  }

  /** The first position at or after `i` that does not hold whitespace
      (or `|s|`). */
  function SkipSpaces(s: string, i: nat): (j: nat)
    requires i <= |s|
    ensures i <= j <= |s| && (j < |s| ==> !IsSpace(s[j]))
    ensures forall k :: i <= k < j ==> IsSpace(s[k])
    decreases |s| - i
  {
    if i < |s| && IsSpace(s[i]) then SkipSpaces(s, i + 1) else i
  }

  /** The position just after the last non-whitespace character of
      `s[lo..j]` (or `lo`). */
  function BackSpaces(s: string, lo: nat, j: nat): (e: nat)
    requires lo <= j <= |s|
    ensures lo <= e <= j && (e > lo ==> !IsSpace(s[e - 1]))
    ensures forall k :: e <= k < j ==> IsSpace(s[k])
    decreases j
  {
    if j > lo && IsSpace(s[j - 1]) then BackSpaces(s, lo, j - 1) else j
  }

  /** Python's `str.strip()` and JavaScript's `String.prototype.trim()`:
      the result is a slice of `s` that neither starts nor ends with
      whitespace, and what is cut off on either side is all whitespace. */
  function Trim(s: string): (r: string)
    ensures r == [] || (!IsSpace(r[0]) && !IsSpace(r[|r| - 1]))
    ensures r == [] <==> IsBlank(s)
  {
    var i := SkipSpaces(s, 0);
    var j := BackSpaces(s, i, |s|);
    assert i < j ==> s[i..j][0] == s[i] && s[i..j][j - i - 1] == s[j - 1];
    s[i..j]
  }

  /** What `Trim` cuts off on either side is all whitespace, and what it
      keeps is the slice between. */
  lemma TrimIsSlice(s: string)
    ensures exists i, j {:trigger s[i..j]} :: 0 <= i <= j <= |s| && Trim(s) == s[i..j] &&
              (forall k :: 0 <= k < i ==> IsSpace(s[k])) && (forall k :: j <= k < |s| ==> IsSpace(s[k]))
  {
    var i := SkipSpaces(s, 0);
    var j := BackSpaces(s, i, |s|);
    assert Trim(s) == s[i..j];
  }

  /** `s` after the run of whitespace at its front: what the `\s+` of
      `split(/\s+/)` consumes after the first whitespace character. */
  function TrimStart(s: string): (r: string)
    ensures |r| <= |s| && r == s[|s| - |r|..]
    ensures r == [] || !IsSpace(r[0])
    ensures forall k :: 0 <= k < |s| - |r| ==> IsSpace(s[k])
  {
    if s != [] && IsSpace(s[0]) then TrimStart(s[1..]) else s
  }

  /** JavaScript's `toLowerCase` and Python's `lower` on one character,
      restricted to the ASCII letters. */
  function LowerChar(c: char): char {
    if 'A' <= c <= 'Z' then (c as int + 32) as char else c
  }

  /** `s` with every ASCII capital replaced by its small letter. */
  function Lower(s: string): (r: string)
    ensures |r| == |s|
    ensures forall i :: 0 <= i < |s| ==> r[i] == LowerChar(s[i])
  {
    seq(|s|, i requires 0 <= i < |s| => LowerChar(s[i]))
  }

  /** `s.startsWith(p)` / `s.startswith(p)`. */
  predicate StartsWith(s: string, p: string) {
    |p| <= |s| && s[..|p|] == p
  }

  /** One step of Python's `str.split()`: `cur` is the word read so far. */
  function Tokens(s: string, cur: string): (r: seq<string>)
    ensures (forall i :: 0 <= i < |cur| ==> !IsSpace(cur[i])) ==>
              forall k :: 0 <= k < |r| ==> IsWord(r[k])
    decreases |s|
  {
    if s == [] then
      if cur == [] then [] else [cur]
    else if IsSpace(s[0]) then
      (if cur == [] then [] else [cur]) + Tokens(s[1..], [])
    else
      Tokens(s[1..], cur + [s[0]])
  }

  /** Python's `str.split()` with no argument: the maximal runs of
      non-whitespace characters, in order. No word is empty and no word
      contains whitespace. */
  function Words(s: string): (r: seq<string>)
    ensures forall k :: 0 <= k < |r| ==> IsWord(r[k])
  {
    Tokens(s, [])
  }

  /** One step of JavaScript's `split(/\s+/)`: `cur` is the piece read so
      far. There is always a piece, and none holds whitespace. */
  function Pieces(s: string, cur: string): (r: seq<string>)
    ensures |r| >= 1
    ensures (forall i :: 0 <= i < |cur| ==> !IsSpace(cur[i])) ==>
              forall k, i :: 0 <= k < |r| && 0 <= i < |r[k]| ==> !IsSpace(r[k][i])
    decreases |s|
  {
    if s == [] then [cur]
    else if IsSpace(s[0]) then [cur] + Pieces(TrimStart(s[1..]), [])
    else Pieces(s[1..], cur + [s[0]])
  }

  /** JavaScript's `s.split(/\s+/)`: the pieces between maximal runs of
      whitespace, including an empty first piece when `s` starts with
      whitespace, an empty last one when it ends with whitespace, and
      `[""]` for the empty string. */
  function JsSplit(s: string): (r: seq<string>)
    ensures |r| >= 1
    ensures forall k, i :: 0 <= k < |r| && 0 <= i < |r[k]| ==> !IsSpace(r[k][i])
  {
    Pieces(s, [])
  }

  /** Every word of `ws` in lower case. */
  function LowerEach(ws: seq<string>): (r: seq<string>)
    ensures |r| == |ws|
    ensures forall k :: 0 <= k < |ws| ==> r[k] == Lower(ws[k])
  {
    seq(|ws|, k requires 0 <= k < |ws| => Lower(ws[k]))
  }

  /** Lower-casing a list word by word distributes over concatenation. */
  lemma LowerEachAppend(a: seq<string>, b: seq<string>)
    ensures LowerEach(a + b) == LowerEach(a) + LowerEach(b)
  {
    var l, r := LowerEach(a + b), LowerEach(a) + LowerEach(b);
    assert |l| == |r|;
    forall k | 0 <= k < |l| ensures l[k] == r[k] {
      if k < |a| { assert (a + b)[k] == a[k]; } else { assert (a + b)[k] == b[k - |a|]; }
    }
  }

  /** Case folding never turns a character into whitespace or back. */
  lemma LowerKeepsSpace(c: char)
    ensures IsSpace(LowerChar(c)) == IsSpace(c)
  {
  }

  lemma {:induction false} TokensOfLower(s: string, cur: string)
    ensures Tokens(Lower(s), Lower(cur)) == LowerEach(Tokens(s, cur))
    decreases |s|
  {
    var ls, lc := Lower(s), Lower(cur);
    if s == [] {
      assert ls == [];
      assert LowerEach([cur]) == [lc];
    } else {
      assert ls[0] == LowerChar(s[0]);
      assert ls[1..] == Lower(s[1..]);
      LowerKeepsSpace(s[0]);
      if IsSpace(s[0]) {
        var head: seq<string> := if cur == [] then [] else [cur];
        TokensOfLower(s[1..], []);
        assert Lower([]) == [];
        assert Tokens(s, cur) == head + Tokens(s[1..], []);
        assert Tokens(ls, lc) == LowerEach(head) + Tokens(ls[1..], []);
        LowerEachAppend(head, Tokens(s[1..], []));
      } else {
        TokensOfLower(s[1..], cur + [s[0]]);
        assert Lower(cur + [s[0]]) == lc + [ls[0]];
        assert Tokens(ls, lc) == Tokens(ls[1..], lc + [ls[0]]);
      }
    }
  }

  /** Splitting a lower-cased text gives the lower-cased words of the text:
      case folding and Python's `str.split()` commute. */
  lemma WordsOfLower(s: string)
    ensures Words(Lower(s)) == LowerEach(Words(s))
  {
    TokensOfLower(s, []);
    assert Lower([]) == [];
  }

  /** Python's `str.split()` ignores a leading run of whitespace. */
  lemma {:induction false} TokensSkipSpaces(t: string)
    ensures Tokens(t, []) == Tokens(TrimStart(t), [])
  {
    if t != [] && IsSpace(t[0]) {
      TokensSkipSpaces(t[1..]);
    }
  }

  // ---------------------------------------------------------------------
  // What `str.split()` promises: the words of a text assembled from words
  // and whitespace are exactly those words, in order.

  /** `seps[0] + ws[0] + seps[1] + ... + ws[n-1] + seps[n]`. */
  function Interleave(seps: seq<string>, ws: seq<string>): string
    requires |seps| == |ws| + 1
    decreases |ws|
  {
    if ws == [] then seps[0] else seps[0] + (ws[0] + Interleave(seps[1..], ws[1..]))
  }

  /** Separators for `n` words: all whitespace, and non-empty between two
      words (the outer two may be empty). */
  predicate Separators(seps: seq<string>, n: nat) {
    && |seps| == n + 1
    && (forall k :: 0 <= k < |seps| ==> IsBlank(seps[k]))
    && (forall k :: 0 < k < n ==> seps[k] != [])
  }

  /** Whitespace before the next word is skipped. */
  lemma {:induction false} TokensOfBlank(sep: string, rest: string)
    requires IsBlank(sep)
    ensures Tokens(sep + rest, []) == Tokens(rest, [])
    decreases |sep|
  {
    if sep == [] {
      assert sep + rest == rest;
    } else {
      assert (sep + rest)[0] == sep[0];
      assert (sep + rest)[1..] == sep[1..] + rest;
      TokensOfBlank(sep[1..], rest);
      assert Tokens(sep + rest, []) == [] + Tokens(sep[1..] + rest, []);
    }
  }

  /** Whitespace after a word ends it. */
  lemma TokensEndWord(sep: string, rest: string, cur: string)
    requires IsBlank(sep) && sep != [] && cur != []
    ensures Tokens(sep + rest, cur) == [cur] + Tokens(rest, [])
  {
    assert (sep + rest)[0] == sep[0];
    assert (sep + rest)[1..] == sep[1..] + rest;
    TokensOfBlank(sep[1..], rest);
  }

  /** The characters of a word are read into the pending word. */
  lemma {:induction false} TokensOfWord(w: string, rest: string, cur: string)
    requires forall i :: 0 <= i < |w| ==> !IsSpace(w[i])
    ensures Tokens(w + rest, cur) == Tokens(rest, cur + w)
    decreases |w|
  {
    if w == [] {
      assert w + rest == rest && cur + w == cur;
    } else {
      assert (w + rest)[0] == w[0];
      assert (w + rest)[1..] == w[1..] + rest;
      TokensOfWord(w[1..], rest, cur + [w[0]]);
      assert cur + [w[0]] + w[1..] == cur + w;
    }
  }

  /** Python's `str.split()` gives back exactly the words, in order, of
      any text made of words separated by whitespace. */
  lemma {:induction false} WordsOfInterleave(seps: seq<string>, ws: seq<string>)
    requires Separators(seps, |ws|)
    requires forall k :: 0 <= k < |ws| ==> IsWord(ws[k])
    ensures Words(Interleave(seps, ws)) == ws
    decreases |ws|
  {
    if ws == [] {
      TokensOfBlank(seps[0], []);
      assert seps[0] + [] == seps[0];
    } else {
      var rest := Interleave(seps[1..], ws[1..]);
      TokensOfBlank(seps[0], ws[0] + rest);
      TokensOfWord(ws[0], rest, []);
      assert [] + ws[0] == ws[0];
      if ws[1..] == [] {
        assert rest == seps[1];
        if seps[1] != [] {
          TokensEndWord(seps[1], [], ws[0]);
          assert seps[1] + [] == seps[1];
        }
        assert ws == [ws[0]];
      } else {
        assert seps[1] != [];
        var tail := ws[1] + Interleave(seps[2..], ws[2..]);
        assert seps[1..][1..] == seps[2..] && ws[1..][1..] == ws[2..];
        assert rest == seps[1] + tail;
        TokensEndWord(seps[1], tail, ws[0]);
        WordsOfInterleave(seps[1..], ws[1..]);
        TokensOfBlank(seps[1], tail);
        assert ws == [ws[0]] + ws[1..];
      }
    }
  }

  // ---------------------------------------------------------------------
  // What `split(/\s+/)` returns: the same words, with an empty piece in
  // front for leading whitespace and one behind for trailing whitespace.

  /** A run of whitespace in front of a word (or the end) is consumed
      whole by `\s+`. */
  lemma {:induction false} TrimStartOfBlank(b: string, rest: string)
    requires IsBlank(b) && (rest == [] || !IsSpace(rest[0]))
    ensures TrimStart(b + rest) == rest
    decreases |b|
  {
    if b == [] {
      assert b + rest == rest;
    } else {
      assert (b + rest)[0] == b[0];
      assert (b + rest)[1..] == b[1..] + rest;
      TrimStartOfBlank(b[1..], rest);
    }
  }

  /** The empty piece `split(/\s+/)` makes of the whitespace at one end
      of a text: none when there is no whitespace there. */
  function EdgePiece(sep: string): seq<string> {
    if sep == [] then [] else [""]
  }

  /** Joining three lists of pieces does not depend on the grouping. */
  lemma JoinAssoc(a: seq<string>, b: seq<string>, c: seq<string>)
    ensures a + (b + c) == a + b + c
  {
  }

  /** A whitespace run ends the pending piece. */
  lemma PiecesEndPiece(sep: string, rest: string, cur: string)
    requires IsBlank(sep) && sep != [] && (rest == [] || !IsSpace(rest[0]))
    ensures Pieces(sep + rest, cur) == [cur] + Pieces(rest, [])
  {
    assert (sep + rest)[0] == sep[0];
    assert (sep + rest)[1..] == sep[1..] + rest;
    TrimStartOfBlank(sep[1..], rest);
  }

  /** The characters of a word are read into the pending piece. */
  lemma {:induction false} PiecesOfWord(w: string, rest: string, cur: string)
    requires forall i :: 0 <= i < |w| ==> !IsSpace(w[i])
    ensures Pieces(w + rest, cur) == Pieces(rest, cur + w)
    decreases |w|
  {
    if w == [] {
      assert w + rest == rest && cur + w == cur;
    } else {
      assert (w + rest)[0] == w[0];
      assert (w + rest)[1..] == w[1..] + rest;
      PiecesOfWord(w[1..], rest, cur + [w[0]]);
      assert cur + [w[0]] + w[1..] == cur + w;
    }
  }

  /** Whitespace ends the pending piece and the next word starts a new
      one. */
  lemma PiecesNextWord(sep: string, w: string, after: string, cur: string)
    requires IsBlank(sep) && sep != [] && IsWord(w)
    ensures Pieces(sep + (w + after), cur) == [cur] + Pieces(after, w)
  {
    assert (w + after)[0] == w[0];
    PiecesEndPiece(sep, w + after, cur);
    PiecesOfWord(w, after, []);
    assert [] + w == w;
  }

  /** After the first word, read into `cur`, the pieces are that word,
      the other words, and an empty piece when the text ends in
      whitespace. */
  lemma {:induction false} PiecesAfterWord(seps: seq<string>, ws: seq<string>, cur: string)
    requires Separators(seps, |ws|) && ws != []
    requires forall k :: 0 <= k < |ws| ==> IsWord(ws[k])
    ensures Pieces(Interleave(seps[1..], ws[1..]), cur) == [cur] + ws[1..] + EdgePiece(seps[|ws|])
    decreases |ws|
  {
    var rest := Interleave(seps[1..], ws[1..]);
    if |ws| == 1 {
      assert rest == seps[1];
      if seps[1] != [] {
        PiecesEndPiece(seps[1], [], cur);
        assert seps[1] + [] == seps[1];
      }
      assert ws[1..] == [];
    } else {
      var e := EdgePiece(seps[|ws|]);
      var after := Interleave(seps[2..], ws[2..]);
      assert seps[1..][1..] == seps[2..] && ws[1..][1..] == ws[2..];
      assert rest == seps[1] + (ws[1] + after);
      PiecesNextWord(seps[1], ws[1], after, cur);
      PiecesAfterWord(seps[1..], ws[1..], ws[1]);
      assert seps[1..][|ws| - 1] == seps[|ws|];
      assert [ws[1]] + ws[2..] == ws[1..];
      JoinAssoc([cur], [ws[1]] + ws[2..], e);
    }
  }

  /** JavaScript's `split(/\s+/)` of a text made of one or more words
      separated by whitespace: the words, in order, after an empty piece
      when the text starts with whitespace and before one when it ends
      with whitespace. */
  lemma JsSplitOfInterleave(seps: seq<string>, ws: seq<string>)
    requires Separators(seps, |ws|) && ws != []
    requires forall k :: 0 <= k < |ws| ==> IsWord(ws[k])
    ensures JsSplit(Interleave(seps, ws)) == EdgePiece(seps[0]) + ws + EdgePiece(seps[|ws|])
  {
    var body := ws[0] + Interleave(seps[1..], ws[1..]);
    PiecesFromFirstWord(seps, ws);
    assert Interleave(seps, ws) == seps[0] + body;
    assert body[0] == ws[0][0];
    JsSplitOfEdge(seps[0], body, ws, EdgePiece(seps[|ws|]));
  }

  /** From the first word on, the pieces are the words and the empty
      piece of trailing whitespace. */
  lemma PiecesFromFirstWord(seps: seq<string>, ws: seq<string>)
    requires Separators(seps, |ws|) && ws != []
    requires forall k :: 0 <= k < |ws| ==> IsWord(ws[k])
    ensures Pieces(ws[0] + Interleave(seps[1..], ws[1..]), []) == ws + EdgePiece(seps[|ws|])
  {
    PiecesOfWord(ws[0], Interleave(seps[1..], ws[1..]), []);
    assert [] + ws[0] == ws[0];
    PiecesAfterWord(seps, ws, ws[0]);
    assert [ws[0]] + ws[1..] == ws;
  }

  /** Leading whitespace adds one empty piece in front of the pieces of
      the rest. */
  lemma JsSplitOfEdge(sep: string, body: string, ws: seq<string>, back: seq<string>)
    requires IsBlank(sep) && body != [] && !IsSpace(body[0])
    requires Pieces(body, []) == ws + back
    ensures JsSplit(sep + body) == EdgePiece(sep) + ws + back
  {
    PiecesAfterEdge(sep, body);
    JoinAssoc(EdgePiece(sep), ws, back);
  }

  /** Whitespace at the front of a text gives at most one empty piece. */
  lemma PiecesAfterEdge(sep: string, body: string)
    requires IsBlank(sep) && body != [] && !IsSpace(body[0])
    ensures Pieces(sep + body, []) == EdgePiece(sep) + Pieces(body, [])
  {
    if sep == [] {
      assert sep + body == body;
    } else {
      PiecesEndPiece(sep, body, []);
    }
  }

  /** JavaScript's `split(/\s+/)` of a blank text: one empty piece for
      the empty text, two for any whitespace. */
  lemma JsSplitOfBlank(s: string)
    requires IsBlank(s)
    ensures JsSplit(s) == if s == [] then [""] else ["", ""]
  {
    if s != [] {
      var t := TrimStart(s[1..]);
      assert t == [];
      assert Pieces(s, []) == [[]] + Pieces(t, []);
    }
  }

  /** Trimming the front of a text that ends in a non-whitespace character
      keeps that character. */
  lemma {:induction false} TrimStartKeepsLast(t: string)
    requires t != [] && !IsSpace(t[|t| - 1])
    ensures TrimStart(t) != [] && TrimStart(t)[|TrimStart(t)| - 1] == t[|t| - 1]
  {
    if IsSpace(t[0]) {
      TrimStartKeepsLast(t[1..]);
    }
  }

  lemma {:induction false} PiecesAreTokens(s: string, cur: string)
    requires cur != [] || (s != [] && !IsSpace(s[0]))
    requires s == [] || !IsSpace(s[|s| - 1])
    ensures Pieces(s, cur) == Tokens(s, cur)
    decreases |s|
  {
    if s == [] {
    } else if IsSpace(s[0]) {
      var rest := TrimStart(s[1..]);
      TrimStartKeepsLast(s[1..]);
      TokensSkipSpaces(s[1..]);
      PiecesAreTokens(rest, []);
    } else {
      PiecesAreTokens(s[1..], cur + [s[0]]);
    }
  }

  /** On a non-empty text that neither starts nor ends with whitespace,
      JavaScript's `split(/\s+/)` and Python's `str.split()` cut the same
      words. */
  lemma JsSplitIsWords(s: string)
    requires s != [] && !IsSpace(s[0]) && !IsSpace(s[|s| - 1])
    ensures JsSplit(s) == Words(s)
  {
    PiecesAreTokens(s, []);
  }

  /** Where the two differ: JavaScript keeps an empty piece for the empty
      text and for leading whitespace; Python drops both. */
  lemma JsSplitKeepsEmptyPieces()
    ensures JsSplit("") == [""] && Words("") == []
    ensures JsSplit(" a") == ["", "a"] && Words(" a") == ["a"]
  {
    var a: string := "a";
    assert a[1..] == [] && [] + [a[0]] == a;
    assert Pieces(a, []) == Pieces([], a);
    assert Tokens(a, []) == Tokens([], a);
    var s: string := " a";
    assert IsSpace(s[0]) && s[1..] == a;
    assert TrimStart(a) == a;
    assert Pieces(s, []) == [[]] + Pieces(a, []);
    assert Tokens(s, []) == [] + Tokens(a, []);
  }

  lemma {:induction false} SkipSpacesOfLower(s: string, i: nat)
    requires i <= |s|
    ensures SkipSpaces(Lower(s), i) == SkipSpaces(s, i)
    decreases |s| - i
  {
    if i < |s| {
      LowerKeepsSpace(s[i]);
      if IsSpace(s[i]) { SkipSpacesOfLower(s, i + 1); }
    }
  }

  lemma {:induction false} BackSpacesOfLower(s: string, lo: nat, j: nat)
    requires lo <= j <= |s|
    ensures BackSpaces(Lower(s), lo, j) == BackSpaces(s, lo, j)
    decreases j
  {
    if j > lo {
      LowerKeepsSpace(s[j - 1]);
      if IsSpace(s[j - 1]) { BackSpacesOfLower(s, lo, j - 1); }
    }
  }

  /** Case folding and trimming commute. */
  lemma TrimOfLower(s: string)
    ensures Trim(Lower(s)) == Lower(Trim(s))
  {
    var i := SkipSpaces(s, 0);
    var j := BackSpaces(s, i, |s|);
    SkipSpacesOfLower(s, 0);
    BackSpacesOfLower(s, i, |s|);
    LowerSlice(s, i, j);
  }

  /** Lower-casing a slice is slicing the lower-cased text. */
  lemma LowerSlice(s: string, i: nat, j: nat)
    requires i <= j <= |s|
    ensures Lower(s)[i..j] == Lower(s[i..j])
  {
  }

  /** The set of the lower-case forms of the words: Python's
      `set(w.lower() for w in ws)` and JavaScript's
      `new Set(ws.map(w => w.toLowerCase()))`. */
  function LowerSet(ws: seq<string>): (r: set<string>)
    ensures forall w :: w in ws ==> Lower(w) in r
  {
    set w | w in ws :: Lower(w)
  }

  /** Nothing else is in the set: each member is the lower-case form of
      a word of `ws`. */
  lemma LowerSetMember(ws: seq<string>, x: string)
    requires x in LowerSet(ws)
    ensures exists k :: 0 <= k < |ws| && x == Lower(ws[k])
  {
    var w :| w in ws && x == Lower(w);
    var k :| 0 <= k < |ws| && ws[k] == w;
  }
}
