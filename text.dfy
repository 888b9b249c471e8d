/** The string handling of the C compile strategy: reading the compiler's
    error stream line by line with `std::getline`, splitting a program's
    output with `std::views::split('\n')`, and the right trim applied to
    each piece. */
module Text {
  import opened Utils

  /** The text with one trailing newline removed, if it has one. */
  function DropFinalNewline(s: string): (r: string)
    ensures r == s || r + "\n" == s
    ensures r == s <==> (s == [] || s[|s| - 1] != '\n')
  {
    if s != [] && s[|s| - 1] == '\n' then s[..|s| - 1] else s
  }

  /** The first newline at or after `pos`, or `|text|` if there is none. */
  function NewlineFrom(text: string, pos: nat): (k: nat)
    requires pos <= |text|
    ensures pos <= k <= |text|
    ensures k < |text| ==> text[k] == '\n'
    ensures forall i :: pos <= i < k ==> text[i] != '\n'
    decreases |text| - pos
  {
    if pos == |text| || text[pos] == '\n' then pos else NewlineFrom(text, pos + 1)
  }

  /** `std::getline(stream, line)` on a stream holding `text` and positioned
      at `pos`: it fails when nothing is left, otherwise it returns the line
      read and the position after it (see GetLineReads). */
  function GetLine(text: string, pos: nat): (r: Option<(string, nat)>)
    requires pos <= |text|
    ensures r.None? <==> pos == |text|
    ensures r.Some? ==> pos < r.value.1 <= |text|
  {
    if pos == |text| then None
    else
      var k := NewlineFrom(text, pos);
      if k < |text| then Some((text[pos..k], k + 1)) else Some((text[pos..k], k))
  }

  /** What a successful `getline` reads: the characters up to the next
      newline, which it consumes without storing, or the rest of the text
      when no newline is left. */
  lemma GetLineReads(text: string, pos: nat)
    requires pos < |text|
    ensures GetLine(text, pos).Some?
    ensures var (line, next) := GetLine(text, pos).value;
            '\n' !in line
            && (text[pos..next] == line + "\n" || (next == |text| && text[pos..] == line))
  {
    var k := NewlineFrom(text, pos);
    assert '\n' !in text[pos..k] by {
      forall i | 0 <= i < k - pos ensures text[pos..k][i] != '\n' {
        assert text[pos..k][i] == text[pos + i];
      }
    }
    if k < |text| {
      assert text[pos..k + 1] == text[pos..k] + "\n";
    }
  }

  /** The pieces of `s` between newlines, for any `s`, even the empty one:
      there is always one piece more than there are newlines. */
  function Pieces(s: string): (ps: seq<string>)
    ensures |ps| >= 1
    ensures forall k :: 0 <= k < |ps| ==> '\n' !in ps[k]
  {
    if s == [] then [""]
    else
      var rest := Pieces(s[1..]);
      if s[0] == '\n' then [""] + rest
      else [[s[0]] + rest[0]] + rest[1..]
  }

  /** `s | std::views::split('\n')` converted to strings
      (src/lib/c_compile_strategy.cpp:218-221). A split view of an empty
      range has no elements, so the empty string gives no pieces; any other
      string gives the pieces between its newlines, with an empty last piece
      after a final newline. */
  function Split(s: string): (ps: seq<string>)
    ensures s == [] <==> ps == []
  {
    if s == [] then [] else Pieces(s)
  }

  /** The pieces joined with one newline between each two. */
  function Join(ps: seq<string>): string
  {
    if ps == [] then "" else if |ps| == 1 then ps[0] else ps[0] + "\n" + Join(ps[1..])
  }

  lemma {:induction false} JoinCons(p: string, ps: seq<string>)
    requires ps != []
    ensures Join([p] + ps) == p + "\n" + Join(ps)
  {
    assert ([p] + ps)[1..] == ps;
  }

  /** Joining the pieces with newlines gives back the text. */
  lemma {:induction false} JoinPieces(s: string)
    ensures Join(Pieces(s)) == s
    decreases |s|
  {
    if s != [] {
      var rest := Pieces(s[1..]);
      JoinPieces(s[1..]);
      if s[0] == '\n' {
        JoinCons("", rest);
        assert s == "\n" + s[1..];
      } else if |rest| == 1 {
        assert Pieces(s) == [[s[0]] + rest[0]];
        assert s == [s[0]] + s[1..];
      } else {
        JoinCons(rest[0], rest[1..]);
        assert rest == [rest[0]] + rest[1..];
        JoinCons([s[0]] + rest[0], rest[1..]);
        assert s == [s[0]] + s[1..];
      }
    }
  }

  /** No piece of the split contains a newline, and joining the pieces with
      newlines gives back the text. */
  lemma SplitJoin(s: string)
    ensures forall k :: 0 <= k < |Split(s)| ==> '\n' !in Split(s)[k]
    ensures Join(Split(s)) == s
  {
    if s != [] { JoinPieces(s); }
  }

  /** There is one piece more than there are newlines. */
  lemma {:induction false} PiecesCount(s: string)
    ensures |Pieces(s)| == multiset(s)['\n'] + 1
    decreases |s|
  {
    if s != [] {
      PiecesCount(s[1..]);
      assert s == [s[0]] + s[1..];
      assert multiset(s) == multiset([s[0]]) + multiset(s[1..]);
    }
  }

  /** Every character of a piece is a character of the text. */
  lemma {:induction false} PiecesChars(s: string, k: nat, c: char)
    requires k < |Pieces(s)| && c in Pieces(s)[k]
    ensures c in s
    decreases |s|
  {
    if s != [] {
      var rest := Pieces(s[1..]);
      if s[0] == '\n' {
        if k > 0 { PiecesChars(s[1..], k - 1, c); }
      } else if k > 0 {
        assert Pieces(s)[k] == rest[k];
        PiecesChars(s[1..], k, c);
      } else if c != s[0] {
        assert c in rest[0];
        PiecesChars(s[1..], 0, c);
      }
    }
  }

  /** A text without newlines is a single piece. */
  lemma {:induction false} PiecesOfLine(x: string)
    requires '\n' !in x
    ensures Pieces(x) == [x]
    decreases |x|
  {
    if x != [] {
      assert '\n' !in x[1..] by {
        forall i | 0 <= i < |x| - 1 ensures x[1..][i] != '\n' { assert x[1..][i] == x[i + 1]; }
      }
      PiecesOfLine(x[1..]);
      assert x == [x[0]] + x[1..];
    }
  }

  /** A line without newlines, a newline, then more text: the line is the
      first piece and the rest are the pieces of the remaining text. */
  lemma {:induction false} PiecesAfterLine(x: string, t: string)
    requires '\n' !in x
    ensures Pieces(x + "\n" + t) == [x] + Pieces(t)
    decreases |x|
  {
    var s := x + "\n" + t;
    if x == [] {
      assert s[0] == '\n' && s[1..] == t;
    } else {
      assert '\n' !in x[1..] by {
        forall i | 0 <= i < |x| - 1 ensures x[1..][i] != '\n' { assert x[1..][i] == x[i + 1]; }
      }
      PiecesAfterLine(x[1..], t);
      assert s[0] == x[0] && s[1..] == x[1..] + "\n" + t;
      assert x == [x[0]] + x[1..];
    }
  }

  /** Splitting undoes joining, for pieces without newlines; the one
      exception is the single empty piece, whose join is the empty text. */
  lemma {:induction false} SplitOfJoin(ps: seq<string>)
    requires forall k :: 0 <= k < |ps| ==> '\n' !in ps[k]
    requires ps != [""]
    ensures Split(Join(ps)) == ps
    decreases |ps|
  {
    if |ps| == 1 {
      PiecesOfLine(ps[0]);
    } else if |ps| > 1 {
      if ps[1..] == [""] {
        assert Join(ps) == ps[0] + "\n" + "";
        PiecesAfterLine(ps[0], "");
        assert ps == [ps[0]] + [""];
      } else {
        SplitOfJoin(ps[1..]);
        PiecesAfterLine(ps[0], Join(ps[1..]));
        assert ps == [ps[0]] + ps[1..];
      }
    }
  }

  /** The characters the trim loop removes: `'\r'`, `'\n'`, space and tab. */
  predicate Trimmable(c: char)
  {
    c == '\r' || c == '\n' || c == ' ' || c == '\t'
  }

  /** `s` with every trailing trimmable character removed. It is a prefix of
      `s`, what it removes is trimmable, and it is empty or ends in a
      character that is not. */
  function RightTrimmed(s: string): (r: string)
    ensures |r| <= |s| && r == s[..|r|]
    ensures forall i :: |r| <= i < |s| ==> Trimmable(s[i])
    ensures r == [] || !Trimmable(r[|r| - 1])
    decreases |s|
  {
    if s != [] && Trimmable(s[|s| - 1]) then RightTrimmed(s[..|s| - 1]) else s
  }

  /** The three properties of RightTrimmed determine it: any prefix of `s`
      that leaves only trimmable characters behind and does not itself end
      in one is the trimmed text. */
  lemma TrimmedUnique(s: string, p: string)
    requires |p| <= |s| && p == s[..|p|]
    requires forall i :: |p| <= i < |s| ==> Trimmable(s[i])
    requires p == [] || !Trimmable(p[|p| - 1])
    ensures p == RightTrimmed(s)
  {
  }

  /** Trimming twice is trimming once. */
  lemma TrimIdempotent(s: string)
    ensures RightTrimmed(RightTrimmed(s)) == RightTrimmed(s)
  {
    var r := RightTrimmed(s);
    TrimmedUnique(r, r);
  }

  /** Trimming adds no character: a text without newlines stays without. */
  lemma TrimKeepsNoNewline(s: string)
    requires '\n' !in s
    ensures '\n' !in RightTrimmed(s)
  {
    var r := RightTrimmed(s);
    forall i | 0 <= i < |r| ensures r[i] != '\n' {
      assert r[i] == s[i];
    }
  }

  /** One trailing blank after a line that does not end in one is removed,
      and nothing else. */
  lemma TrimOneBlank(x: string, b: char)
    requires Trimmable(b) && (x == [] || !Trimmable(x[|x| - 1]))
    ensures RightTrimmed(x + [b]) == x
  {
    assert (x + [b])[..|x|] == x;
  }

  /** Trailing blanks appended to a line are all trimmed away. */
  lemma TrimBlankSuffix(x: string, t: string)
    requires forall i :: 0 <= i < |t| ==> Trimmable(t[i])
    ensures RightTrimmed(x + t) == RightTrimmed(x)
  {
    var p := RightTrimmed(x);
    var xt := x + t;
    assert xt[..|p|] == p;
    forall i | |p| <= i < |xt| ensures Trimmable(xt[i]) {
      if i < |x| { assert xt[i] == x[i]; } else { assert xt[i] == t[i - |x|]; }
    }
    TrimmedUnique(xt, p);
  }

  /** Leading and interior whitespace is kept: everything up to the last
      character that is not trimmable survives. */
  lemma TrimKeepsUpToLastKept(s: string, j: nat)
    requires j < |s| && !Trimmable(s[j])
    ensures j < |RightTrimmed(s)|
    ensures RightTrimmed(s)[..j + 1] == s[..j + 1]
  {
  }
}
