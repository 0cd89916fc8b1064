/** ASCII text: case folding and trimming as the config and the clients use them. */
module Text {
  predicate IsSpace(c: char) { c == ' ' || c == '\t' || c == '\n' || c == '\r' || c == 11 as char || c == 12 as char }

  function LowerChar(c: char): char {
    if 'A' <= c <= 'Z' then (c as int + 32) as char else c
  }

  function Lower(s: string): (r: string)
    ensures |r| == |s|
  {
    seq(|s|, i requires 0 <= i < |s| => LowerChar(s[i]))
  }

  function TrimLeft(s: string): string {
    if s != "" && IsSpace(s[0]) then TrimLeft(s[1..]) else s
  }

  function TrimRight(s: string): string {
    if s != "" && IsSpace(s[|s| - 1]) then TrimRight(s[..|s| - 1]) else s
  }

  function Trim(s: string): string { TrimRight(TrimLeft(s)) }

  predicate HasPrefix(s: string, prefix: string) { prefix <= s }

  /** The pieces between separators, at least one. */
  function Split(s: string, sep: char): (r: seq<string>)
    ensures r != []
  {
    if s == "" then [""]
    else
      var rest := Split(s[1..], sep);
      if s[0] == sep then [""] + rest else [[s[0]] + rest[0]] + rest[1..]
  }

  /** No space at either end. */
  predicate Trimmed(s: string) { s == "" || (!IsSpace(s[0]) && !IsSpace(s[|s| - 1])) }

  lemma TrimLeftStops(s: string)
    ensures TrimLeft(s) == "" || !IsSpace(TrimLeft(s)[0])
  {
  }

  lemma TrimRightStops(s: string)
    ensures TrimRight(s) == "" || !IsSpace(TrimRight(s)[|TrimRight(s)| - 1])
    ensures TrimRight(s) <= s
  {
  }

  /** Trimming yields trimmed text and changes no other. */
  lemma TrimTrims(s: string)
    ensures Trimmed(Trim(s))
    ensures Trimmed(s) ==> Trim(s) == s
  {
    TrimLeftStops(s);
    TrimRightStops(TrimLeft(s));
  }

  lemma LowerTwice(s: string)
    ensures Lower(Lower(s)) == Lower(s)
  {
  }

  lemma LowerOfSuffix(s: string, n: nat)
    requires n <= |s|
    ensures Lower(s[n..]) == Lower(s)[n..]
  {
  }

  predicate Without(s: string, c: char) { forall i :: 0 <= i < |s| ==> s[i] != c }

  /** A piece without separators comes back whole. */
  lemma {:induction false} SplitOfPiece(piece: string, sep: char)
    requires Without(piece, sep)
    ensures Split(piece, sep) == [piece]
  {
    if piece != "" {
      SplitOfPiece(piece[1..], sep);
      assert [piece[0]] + piece[1..] == piece;
    }
  }

  lemma {:induction false} SplitOfPieces(piece: string, sep: char, rest: string)
    requires Without(piece, sep)
    ensures Split(piece + [sep] + rest, sep) == [piece] + Split(rest, sep)
  {
    var s := piece + [sep] + rest;
    if piece == "" {
      assert s[0] == sep && s[1..] == rest;
    } else {
      var tail := piece[1..];
      assert s[0] == piece[0] && s[1..] == tail + [sep] + rest;
      SplitOfPieces(tail, sep, rest);
      assert ([tail] + Split(rest, sep))[0] == tail && ([tail] + Split(rest, sep))[1..] == Split(rest, sep);
      assert [piece[0]] + tail == piece;
    }
  }

  // ---------- what these functions mean ----------

  /** `folded` has small letters where `s` has capitals, and is the same elsewhere. */
  predicate FoldsTo(s: string, folded: string) {
    && |s| == |folded|
    && forall i :: 0 <= i < |s| ==>
         if 'A' <= s[i] <= 'Z' then folded[i] as int - 'a' as int == s[i] as int - 'A' as int else folded[i] == s[i]
  }

  lemma LowerExactly(s: string, folded: string)
    ensures Lower(s) == folded <==> FoldsTo(s, folded)
  {
    if FoldsTo(s, folded) {
      assert forall i :: 0 <= i < |s| ==> Lower(s)[i] == folded[i];
    }
  }

  /** Nothing but blanks, tabs, line breaks and page breaks. */
  predicate Blank(s: string) {
    forall i :: 0 <= i < |s| ==>
      s[i] == ' ' || s[i] == '\t' || s[i] == '\n' || s[i] == '\r' || s[i] == 11 as char || s[i] == 12 as char
  }

  lemma {:induction false} TrimLeftSkips(blank: string, rest: string)
    requires Blank(blank)
    ensures TrimLeft(blank + rest) == TrimLeft(rest)
  {
    if blank == "" {
      assert blank + rest == rest;
    } else {
      assert (blank + rest)[1..] == blank[1..] + rest;
      TrimLeftSkips(blank[1..], rest);
    }
  }

  lemma {:induction false} TrimRightSkips(rest: string, blank: string)
    requires Blank(blank)
    ensures TrimRight(rest + blank) == TrimRight(rest)
  {
    if blank == "" {
      assert rest + blank == rest;
    } else {
      var init := blank[..|blank| - 1];
      assert (rest + blank)[..|rest + blank| - 1] == rest + init;
      TrimRightSkips(rest, init);
    }
  }

  lemma {:induction false} TrimLeftCuts(s: string) returns (left: string)
    ensures Blank(left) && s == left + TrimLeft(s)
  {
    left := "";
    if s != "" && IsSpace(s[0]) {
      left := TrimLeftCuts(s[1..]);
      left := [s[0]] + left;
    }
  }

  lemma {:induction false} TrimRightCuts(s: string) returns (right: string)
    ensures Blank(right) && s == TrimRight(s) + right
  {
    right := "";
    if s != "" && IsSpace(s[|s| - 1]) {
      right := TrimRightCuts(s[..|s| - 1]);
      right := right + [s[|s| - 1]];
    }
  }

  /** Trimming cuts off the blanks at both ends, all of them and nothing else. */
  lemma TrimExactly(s: string, trimmed: string)
    ensures Trim(s) == trimmed <==>
              && (trimmed == "" || (!Blank(trimmed[..1]) && !Blank(trimmed[|trimmed| - 1..])))
              && exists left, right :: Blank(left) && Blank(right) && s == left + trimmed + right
  {
    TrimTrims(s);
    var left := TrimLeftCuts(s);
    var right := TrimRightCuts(TrimLeft(s));
    assert s == left + Trim(s) + right;
    assert Trimmed(trimmed) <==> trimmed == "" || (!Blank(trimmed[..1]) && !Blank(trimmed[|trimmed| - 1..])) by {
      if trimmed != "" {
        assert trimmed[..1] == [trimmed[0]] && trimmed[|trimmed| - 1..] == [trimmed[|trimmed| - 1]];
      }
    }
    if Trimmed(trimmed) {
      forall l, r | Blank(l) && Blank(r) && s == l + trimmed + r ensures Trim(s) == trimmed {
        TrimStrips(l, trimmed, r);
      }
    }
  }

  lemma TrimStrips(left: string, trimmed: string, right: string)
    requires Blank(left) && Blank(right) && Trimmed(trimmed)
    ensures Trim(left + trimmed + right) == trimmed
  {
    assert left + trimmed + right == left + (trimmed + right);
    TrimLeftSkips(left, trimmed + right);
    if trimmed == "" {
      assert trimmed + right == right + "";
      TrimLeftSkips(right, "");
    } else {
      TrimRightSkips(trimmed, right);
    }
  }

  /** The pieces with a separator between each two. */
  function JoinWith(pieces: seq<string>, sep: char): string
    requires pieces != []
  {
    if |pieces| == 1 then pieces[0] else pieces[0] + [sep] + JoinWith(pieces[1..], sep)
  }

  lemma {:induction false} SplitJoins(s: string, sep: char)
    ensures JoinWith(Split(s, sep), sep) == s && forall p <- Split(s, sep) :: Without(p, sep)
  {
    if s != "" {
      SplitJoins(s[1..], sep);
      var rest := Split(s[1..], sep);
      assert s == [s[0]] + s[1..] && rest[0] in rest;
      if s[0] == sep {
        assert ([""] + rest)[1..] == rest;
      } else {
        LongerFirst(s[0], rest, sep);
      }
    }
  }

  lemma LongerFirst(c: char, pieces: seq<string>, sep: char)
    requires pieces != []
    ensures JoinWith([[c] + pieces[0]] + pieces[1..], sep) == [c] + JoinWith(pieces, sep)
  {
    assert ([[c] + pieces[0]] + pieces[1..])[1..] == pieces[1..];
  }

  lemma {:induction false} SplitOfJoined(pieces: seq<string>, sep: char)
    requires pieces != [] && forall p <- pieces :: Without(p, sep)
    ensures Split(JoinWith(pieces, sep), sep) == pieces
  {
    assert pieces[0] in pieces;
    if |pieces| == 1 {
      SplitOfPiece(pieces[0], sep);
    } else {
      SplitOfPieces(pieces[0], sep, JoinWith(pieces[1..], sep));
      SplitOfJoined(pieces[1..], sep);
    }
  }

  /** Splitting gives the one list of pieces without separators that joins to the text. */
  lemma SplitExactly(s: string, sep: char, pieces: seq<string>)
    ensures Split(s, sep) == pieces <==>
              pieces != [] && JoinWith(pieces, sep) == s && forall p <- pieces :: Without(p, sep)
  {
    SplitJoins(s, sep);
    if pieces != [] && JoinWith(pieces, sep) == s && forall p <- pieces :: Without(p, sep) {
      SplitOfJoined(pieces, sep);
    }
  }
}
