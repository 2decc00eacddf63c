/** SDP text as lines: `split(/\r?\n/)`, `join(eol)`, and how one undoes the other. */
module SdpLines {
  import opened Text

  const CRLF := "\r\n"
  const LF := "\n"

  function SplitLines(s: string): (lines: seq<string>)
    ensures lines != []
    ensures forall i | 0 <= i < |lines| :: '\n' !in lines[i]
  {
    if s == [] then [[]]
    else if s[0] == '\n' then [[]] + SplitLines(s[1..])
    else if |s| > 1 && s[0] == '\r' && s[1] == '\n' then [[]] + SplitLines(s[2..])
    else
      var rest := SplitLines(s[1..]);
      [[s[0]] + rest[0]] + rest[1..]
  }

  /** `s.includes('\r\n')` */
  predicate HasCrLf(s: string) {
    |s| > 1 && ((s[0] == '\r' && s[1] == '\n') || HasCrLf(s[1..]))
  }

  predicate EndsInCr(line: string) {
    line != [] && line[|line| - 1] == '\r'
  }

  /** A line as it reads after a line feed has been put behind it: one final carriage return joins the break. */
  function Chomp(line: string): string {
    if EndsInCr(line) then line[..|line| - 1] else line
  }

  function ChompAllButLast(lines: seq<string>): (r: seq<string>)
    ensures |r| == |lines|
  {
    if |lines| <= 1 then lines else [Chomp(lines[0])] + ChompAllButLast(lines[1..])
  }

  lemma {:induction false} SplitOneLine(a: string)
    requires '\n' !in a
    ensures SplitLines(a) == [a]
  {
    if a != [] {
      assert a[0] in a;
      assert |a| > 1 ==> a[1] in a;
      SplitOneLine(a[1..]);
      assert a == [a[0]] + a[1..];
    }
  }

  lemma {:induction false} SplitAtBreak(a: string, b: string)
    requires '\n' !in a
    ensures SplitLines(a + LF + b) == [Chomp(a)] + SplitLines(b)
  {
    var s := a + LF + b;
    if a == [] {
      assert s[1..] == b;
    } else if a == "\r" {
      assert s[0] == '\r' && s[1] == '\n' && s[2..] == b;
    } else {
      assert a[0] in a;
      assert |a| > 1 ==> a[1] in a && s[1] == a[1];
      assert s[1..] == a[1..] + LF + b;
      SplitAtBreak(a[1..], b);
      assert Chomp(a) == [a[0]] + Chomp(a[1..]);
    }
  }

  lemma {:induction false} SplitJoinLf(lines: seq<string>)
    requires lines != [] && forall i | 0 <= i < |lines| :: '\n' !in lines[i]
    ensures SplitLines(Join(lines, LF)) == ChompAllButLast(lines)
  {
    if |lines| == 1 {
      SplitOneLine(lines[0]);
      assert lines == [lines[0]];
    } else {
      SplitAtBreak(lines[0], Join(lines[1..], LF));
      SplitJoinLf(lines[1..]);
    }
  }

  lemma {:induction false} SplitJoinCrLf(lines: seq<string>)
    requires lines != [] && forall i | 0 <= i < |lines| :: '\n' !in lines[i]
    ensures SplitLines(Join(lines, CRLF)) == lines
  {
    if |lines| == 1 {
      SplitOneLine(lines[0]);
      assert lines == [lines[0]];
    } else {
      var a, b := lines[0], Join(lines[1..], CRLF);
      assert a + CRLF + b == (a + "\r") + LF + b;
      SplitAtBreak(a + "\r", b);
      assert Chomp(a + "\r") == a;
      SplitJoinCrLf(lines[1..]);
      assert lines == [lines[0]] + lines[1..];
    }
  }

  /** Every line feed has a carriage return before it. */
  predicate OnlyCrLf(s: string) {
    forall i | 0 <= i < |s| && s[i] == '\n' :: i > 0 && s[i - 1] == '\r'
  }

  lemma OnlyCrLfSteps(s: string)
    requires s != ""
    ensures s[0] == '\n' ==> !OnlyCrLf(s)
    ensures |s| > 1 && s[0] == '\r' && s[1] == '\n' ==> (OnlyCrLf(s) <==> OnlyCrLf(s[2..]))
    ensures s[0] != '\n' && !(|s| > 1 && s[0] == '\r' && s[1] == '\n') ==> (OnlyCrLf(s) <==> OnlyCrLf(s[1..]))
  {
    var cut := if |s| > 1 && s[0] == '\r' && s[1] == '\n' then 2 else 1;
    var rest := s[cut..];
    if OnlyCrLf(rest) && s[0] != '\n' {
      forall i | 0 <= i < |s| && s[i] == '\n'
        ensures i > 0 && s[i - 1] == '\r'
      {
        if i >= cut {
          assert rest[i - cut] == '\n';
        }
      }
    }
    if OnlyCrLf(s) {
      forall i | 0 <= i < |rest| && rest[i] == '\n'
        ensures i > 0 && rest[i - 1] == '\r'
      {
        assert s[i + cut] == '\n' && s[i + cut - 1] == '\r';
      }
    }
  }

  /** Splitting and joining with CRLF gives the text back exactly when it has no other line breaks. */
  lemma {:induction false} JoinSplitCrLfIff(s: string)
    ensures Join(SplitLines(s), CRLF) == s <==> OnlyCrLf(s)
  {
    if s != "" {
      OnlyCrLfSteps(s);
      if s[0] == '\n' {
        assert Join(SplitLines(s), CRLF)[0] == '\r';
      } else if |s| > 1 && s[0] == '\r' && s[1] == '\n' {
        JoinSplitCrLfIff(s[2..]);
        var rest := SplitLines(s[2..]);
        assert SplitLines(s) == [[]] + rest && SplitLines(s)[1..] == rest;
        assert Join(SplitLines(s), CRLF) == CRLF + Join(rest, CRLF);
        assert s == CRLF + s[2..];
        SameFront(CRLF, Join(rest, CRLF), s[2..]);
      } else {
        JoinSplitCrLfIff(s[1..]);
        var rest := SplitLines(s[1..]);
        JoinFront(s[0], rest);
        assert s == [s[0]] + s[1..];
        SameFront([s[0]], Join(rest, CRLF), s[1..]);
      }
    }
  }

  lemma SameFront(a: string, b: string, c: string)
    ensures a + b == a + c <==> b == c
  {
    assert (a + b)[|a|..] == b && (a + c)[|a|..] == c;
  }

  lemma JoinFront(c: char, lines: seq<string>)
    requires lines != []
    ensures Join([[c] + lines[0]] + lines[1..], CRLF) == [c] + Join(lines, CRLF)
  {
    var longer := [[c] + lines[0]] + lines[1..];
    assert longer[1..] == lines[1..];
    if |lines| > 1 {
      assert [c] + lines[0] + CRLF + Join(lines[1..], CRLF) == [c] + (lines[0] + CRLF + Join(lines[1..], CRLF));
    }
  }

  ghost predicate NoneButLastEndsInCr(lines: seq<string>) {
    forall i | 0 <= i < |lines| - 1 :: !EndsInCr(lines[i])
  }

  /** In a text without CRLF only the last line can end in a carriage return. */
  lemma {:induction false} StrayOnlyAtTheEnd(s: string)
    requires !HasCrLf(s)
    ensures NoneButLastEndsInCr(SplitLines(s))
  {
    if s != [] {
      StrayOnlyAtTheEnd(s[1..]);
      var lines := SplitLines(s);
      if s[0] == '\n' {
        assert lines[1..] == SplitLines(s[1..]);
      } else {
        var rest := SplitLines(s[1..]);
        assert lines[1..] == rest[1..];
        FirstLineOf(s[1..]);
        forall i | 0 <= i < |lines| - 1
          ensures !EndsInCr(lines[i])
        {
          if i == 0 {
            assert !EndsInCr(rest[0]);
          } else {
            assert lines[i] == rest[i];
          }
        }
      }
    }
  }

  /** An empty first line means the text is empty or starts with a break. */
  lemma FirstLineOf(s: string)
    ensures SplitLines(s)[0] == [] ==> s == [] || s[0] == '\n' || (|s| > 1 && s[0] == '\r' && s[1] == '\n')
    ensures s == [] ==> |SplitLines(s)| == 1
  {
  }

  lemma {:induction false} NothingToChomp(lines: seq<string>)
    requires NoneButLastEndsInCr(lines)
    ensures ChompAllButLast(lines) == lines
  {
    if |lines| > 1 {
      assert !EndsInCr(lines[0]);
      NothingToChomp(lines[1..]);
      assert lines == [lines[0]] + lines[1..];
    }
  }

  /** A break written as CRLF is found again. */
  lemma {:induction false} CrLfInside(a: string, b: string)
    ensures HasCrLf(a + CRLF + b)
  {
    var s := a + CRLF + b;
    if a == [] {
      assert s[0] == '\r' && s[1] == '\n';
    } else {
      assert s[1..] == a[1..] + CRLF + b;
      CrLfInside(a[1..], b);
    }
  }

  lemma {:induction false} NoCrLfInLine(a: string, b: string)
    requires '\n' !in a && !EndsInCr(a)
    ensures HasCrLf(a + LF + b) == HasCrLf(b)
  {
    var s := a + LF + b;
    if a == [] {
      assert s[1..] == b;
    } else {
      assert a[0] in a;
      assert |a| > 1 ==> a[1] in a && s[1] == a[1];
      assert s[1..] == a[1..] + LF + b;
      NoCrLfInLine(a[1..], b);
    }
  }

  lemma {:induction false} NoCrLfInOneLine(a: string)
    requires '\n' !in a
    ensures !HasCrLf(a)
  {
    if |a| > 1 {
      assert a[1] in a;
      NoCrLfInOneLine(a[1..]);
    }
  }

  /** Lines joined by line feeds contain no CRLF unless a line before the last ends in a carriage return. */
  lemma {:induction false} NoCrLfInJoin(lines: seq<string>)
    requires lines != [] && forall i | 0 <= i < |lines| :: '\n' !in lines[i]
    requires NoneButLastEndsInCr(lines)
    ensures !HasCrLf(Join(lines, LF))
  {
    if |lines| == 1 {
      NoCrLfInOneLine(lines[0]);
    } else {
      assert !EndsInCr(lines[0]);
      NoCrLfInLine(lines[0], Join(lines[1..], LF));
      NoCrLfInJoin(lines[1..]);
    }
  }
}
