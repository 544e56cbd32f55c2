/**
 * The few `java.lang.String` and `java.io.BufferedReader` behaviours the model relies on:
 * `startsWith`, `isBlank`, `split` on a one-character separator (which drops trailing
 * empty pieces) and `readLine`.
 */
module Text {

  import opened Outcomes

  predicate StartsWith(s: string, prefix: string) {
    |prefix| <= |s| && s[..|prefix|] == prefix
  }

  predicate EndsWith(s: string, c: char) {
    |s| > 0 && s[|s| - 1] == c
  }

  /** `Character.isWhitespace`: the Unicode space, line and paragraph separators other than the
      no-break spaces, plus the ASCII controls TAB, LF, VT, FF, CR and FS..US. */
  predicate IsWhitespace(c: char) {
    c == ' ' || c == '\t' || c == '\n' || c == '\U{000B}' || c == '\U{000C}' || c == '\r'
    || ('\U{001C}' <= c <= '\U{001F}')
    || c == '\U{1680}' || ('\U{2000}' <= c <= '\U{2006}') || ('\U{2008}' <= c <= '\U{200A}')
    || c == '\U{2028}' || c == '\U{2029}' || c == '\U{205F}' || c == '\U{3000}'
  }

  /** `String.isBlank`: empty or whitespace only. */
  predicate IsBlank(s: string) {
    forall i :: 0 <= i < |s| ==> IsWhitespace(s[i])
  }

  predicate IsAsciiLetter(c: char) {
    'a' <= c <= 'z' || 'A' <= c <= 'Z'
  }

  /** `toLowerCase(Locale.ROOT)` restricted to ASCII letters. */
  function ToLowerAscii(s: string): (r: string)
    ensures |r| == |s|
    ensures forall i :: 0 <= i < |s| ==> r[i] == (if 'A' <= s[i] <= 'Z' then (s[i] as int + 32) as char else s[i])
  {
    seq(|s|, i requires 0 <= i < |s| => if 'A' <= s[i] <= 'Z' then (s[i] as int + 32) as char else s[i])
  }

  /** Index of the first occurrence of `c` in `s`. */
  function IndexOf(s: string, c: char): (r: Option<nat>)
    ensures r.None? <==> c !in s
    ensures r.Some? ==> r.value < |s| && s[r.value] == c && c !in s[..r.value]
  {
    if s == [] then None
    else if s[0] == c then Some(0)
    else match IndexOf(s[1..], c)
      case None => None
      case Some(i) => assert s[1..][..i] == s[1..i + 1]; Some(i + 1)
  }

  /** Every piece of `s` between occurrences of `sep`, empty pieces included. */
  function Pieces(s: string, sep: char): (r: seq<string>)
    ensures |r| >= 1
    decreases |s|
  {
    match IndexOf(s, sep)
    case None => [s]
    case Some(i) => [s[..i]] + Pieces(s[i + 1..], sep)
  }

  /** The pieces joined back with `sep` between them. */
  function Join(pieces: seq<string>, sep: string): string
  {
    if pieces == [] then []
    else if |pieces| == 1 then pieces[0]
    else pieces[0] + sep + Join(pieces[1..], sep)
  }

  /** Joining one more piece adds the separator only when something came before. */
  lemma {:induction false} JoinSnoc(pieces: seq<string>, piece: string, sep: string)
    ensures Join(pieces + [piece], sep) == if pieces == [] then piece else Join(pieces, sep) + sep + piece
    decreases |pieces|
  {
    if |pieces| >= 2 {
      JoinSnoc(pieces[1..], piece, sep);
      assert (pieces + [piece])[1..] == pieces[1..] + [piece];
    } else if |pieces| == 1 {
      assert (pieces + [piece])[1..] == [piece];
    }
  }

  function DropTrailingEmpty(pieces: seq<string>): (r: seq<string>)
    ensures |r| <= |pieces| && r == pieces[..|r|]
    ensures r == [] || r[|r| - 1] != []
    ensures forall k :: |r| <= k < |pieces| ==> pieces[k] == []
  {
    if pieces != [] && pieces[|pieces| - 1] == [] then DropTrailingEmpty(pieces[..|pieces| - 1]) else pieces
  }

  /** `String.split` with a regular expression that matches exactly the one character `sep`
      (Java's single-character fast path): no occurrence gives `[s]`, otherwise the pieces
      without the trailing empty ones. */
  function Split(s: string, sep: char): seq<string>
  {
    if sep !in s then [s] else DropTrailingEmpty(Pieces(s, sep))
  }

  lemma {:induction false} PiecesJoin(s: string, sep: char)
    ensures Join(Pieces(s, sep), [sep]) == s
    decreases |s|
  {
    match IndexOf(s, sep)
    case None =>
    case Some(i) =>
      var rest := Pieces(s[i + 1..], sep);
      PiecesJoin(s[i + 1..], sep);
      calc {
        Join(Pieces(s, sep), [sep]);
        { assert Pieces(s, sep) == [s[..i]] + rest; assert ([s[..i]] + rest)[1..] == rest; }
        s[..i] + [sep] + Join(rest, [sep]);
        s[..i] + [sep] + s[i + 1..];
        { assert s == s[..i] + [sep] + s[i + 1..]; }
        s;
      }
  }

  lemma {:induction false} PiecesFree(s: string, sep: char)
    ensures forall k :: 0 <= k < |Pieces(s, sep)| ==> sep !in Pieces(s, sep)[k]
    decreases |s|
  {
    match IndexOf(s, sep)
    case None =>
    case Some(i) =>
      PiecesFree(s[i + 1..], sep);
  }

  /** The last piece is what follows the last separator, so it is empty exactly when `s` ends in `sep`. */
  lemma {:induction false} LastPiece(s: string, sep: char)
    ensures var p := Pieces(s, sep); (p[|p| - 1] == []) == (s == [] || EndsWith(s, sep))
    decreases |s|
  {
    match IndexOf(s, sep)
    case None =>
    case Some(i) =>
      LastPiece(s[i + 1..], sep);
      var rest := s[i + 1..];
      if rest != [] {
        assert rest[|rest| - 1] == s[|s| - 1];
      }
  }

  /** Splitting keeps every piece when `s` does not end in the separator, so joining gives `s` back. */
  lemma SplitJoin(s: string, sep: char)
    requires !EndsWith(s, sep)
    ensures sep in s ==> Split(s, sep) == Pieces(s, sep)
    ensures Join(Split(s, sep), [sep]) == s
  {
    PiecesJoin(s, sep);
    LastPiece(s, sep);
  }

  /** The pieces of a split never contain the separator. */
  lemma SplitPiecesFree(s: string, sep: char)
    ensures forall k :: 0 <= k < |Split(s, sep)| ==> sep !in Split(s, sep)[k]
  {
    PiecesFree(s, sep);
  }

  /*
   * BufferedReader.readLine
   */

  predicate IsLineBreak(c: char) {
    c == '\n' || c == '\r'
  }

  /** Index of the first `'\n'` or `'\r'`, or `|s|` when there is none. */
  function LineEnd(s: string): (r: nat)
    ensures r <= |s|
    ensures forall k :: 0 <= k < r ==> !IsLineBreak(s[k])
    ensures r < |s| ==> IsLineBreak(s[r])
  {
    if s == [] || IsLineBreak(s[0]) then 0 else 1 + LineEnd(s[1..])
  }

  /** The lines successive `readLine` calls return before `null`: a line ends at `'\n'`, `'\r'`
      or `"\r\n"`, and a final line without a terminator is still returned. */
  function ReadLines(s: string): seq<string>
    decreases |s|
  {
    if s == [] then []
    else
      var i := LineEnd(s);
      if i == |s| then [s]
      else
        var next := if s[i] == '\r' && i + 1 < |s| && s[i + 1] == '\n' then i + 2 else i + 1;
        [s[..i]] + ReadLines(s[next..])
  }
}
