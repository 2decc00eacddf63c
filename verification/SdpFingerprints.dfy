/** What a fingerprint line yields: `/^a=fingerprint:(\S+)\s+(\S+)/` as a language. */
module SdpFingerprints {
  import opened Sequences
  import opened Wrappers
  import opened SdpIdentity

  predicate AllSpaces(s: string) {
    forall i | 0 <= i < |s| :: IsSpace(s[i])
  }

  /** A non-empty word without spaces. */
  predicate IsWord(s: string) {
    s != "" && forall i | 0 <= i < |s| :: !IsSpace(s[i])
  }

  /** Two words with a gap between them, of which the second ends where the rest begins. */
  predicate AreTwoWords(s: string, algorithm: string, gap: string, digest: string, rest: string) {
    && s == algorithm + (gap + (digest + rest))
    && IsWord(algorithm) && IsWord(digest)
    && gap != "" && AllSpaces(gap)
    && (rest == "" || IsSpace(rest[0]))
  }

  /** A fingerprint line with these parts. */
  predicate Written(line: string, algorithm: string, gap: string, digest: string, rest: string) {
    && line == "a=fingerprint:" + (algorithm + (gap + (digest + rest)))
    && AreTwoWords(algorithm + (gap + (digest + rest)), algorithm, gap, digest, rest)
  }

  /** A run is as long as what it consists of, up to the first character of the other kind. */
  lemma {:induction false} RunIs(s: string, at: nat, n: nat, spaces: bool)
    requires at + n <= |s|
    requires forall i | at <= i < at + n :: IsSpace(s[i]) == spaces
    requires at + n < |s| ==> IsSpace(s[at + n]) != spaces
    ensures RunLength(s, at, spaces) == n
    decreases n
  {
    if n > 0 {
      RunIs(s, at + 1, n - 1, spaces);
    }
  }

  lemma {:induction false} RunHolds(s: string, at: nat, spaces: bool)
    requires at <= |s|
    ensures var n := RunLength(s, at, spaces);
            && (forall i | at <= i < at + n :: IsSpace(s[i]) == spaces)
            && (at + n < |s| ==> IsSpace(s[at + n]) != spaces)
    decreases |s| - at
  {
    if at < |s| && IsSpace(s[at]) == spaces {
      RunHolds(s, at + 1, spaces);
    }
  }

  /** Where the four parts of a text are. */
  lemma PartsAt(algorithm: string, gap: string, digest: string, rest: string)
    ensures var s, a, g, d := algorithm + (gap + (digest + rest)), |algorithm|, |gap|, |digest|;
            && |s| == a + g + d + |rest|
            && (forall i | 0 <= i < a :: s[i] == algorithm[i])
            && (forall i | a <= i < a + g :: s[i] == gap[i - a])
            && (forall i | a + g <= i < a + g + d :: s[i] == digest[i - a - g])
            && (rest != "" ==> s[a + g + d] == rest[0])
  {
  }

  lemma PartsCut(algorithm: string, gap: string, digest: string, rest: string)
    ensures var s, a, g, d := algorithm + (gap + (digest + rest)), |algorithm|, |gap|, |digest|;
            s[..a] == algorithm && s[a + g..a + g + d] == digest
  {
    FrontAndBack(algorithm, gap + (digest + rest));
    FrontAndBack(gap, digest + rest);
    FrontAndBack(digest, rest);
    var s, a, g := algorithm + (gap + (digest + rest)), |algorithm|, |gap|;
    assert s[a..][g..] == s[a + g..];
  }

  lemma WordsAreRead(algorithm: string, gap: string, digest: string, rest: string)
    requires AreTwoWords(algorithm + (gap + (digest + rest)), algorithm, gap, digest, rest)
    ensures MatchTwoWords(algorithm + (gap + (digest + rest))) == Some(Fingerprint(algorithm, digest))
  {
    var s, a, g, d := algorithm + (gap + (digest + rest)), |algorithm|, |gap|, |digest|;
    PartsAt(algorithm, gap, digest, rest);
    RunIs(s, 0, a, false);
    RunIs(s, a, g, true);
    RunIs(s, a + g, d, false);
    PartsCut(algorithm, gap, digest, rest);
  }

  lemma WrittenIsRead(line: string, algorithm: string, gap: string, digest: string, rest: string)
    requires Written(line, algorithm, gap, digest, rest)
    ensures MatchFingerprint(line) == Some(Fingerprint(algorithm, digest))
  {
    FrontAndBack("a=fingerprint:", algorithm + (gap + (digest + rest)));
    WordsAreRead(algorithm, gap, digest, rest);
  }

  lemma SliceIsWord(s: string, lo: nat, hi: nat)
    requires lo < hi <= |s| && forall i | lo <= i < hi :: !IsSpace(s[i])
    ensures IsWord(s[lo..hi])
  {
  }

  lemma SliceIsSpaces(s: string, lo: nat, hi: nat)
    requires lo < hi <= |s| && forall i | lo <= i < hi :: IsSpace(s[i])
    ensures s[lo..hi] != "" && AllSpaces(s[lo..hi])
  {
  }

  lemma TwoWordsAreWritten(s: string, f: Fingerprint) returns (gap: string, rest: string)
    requires MatchTwoWords(s) == Some(f)
    ensures AreTwoWords(s, f.algorithm, gap, f.digest, rest)
  {
    var a, g, d := RunsOf(s);
    CutIsWritten(s, a, g, d);
    gap, rest := s[a..a + g], s[a + g + d..];
  }

  /** Where the words are that are read. */
  lemma RunsOf(s: string) returns (a: nat, g: nat, d: nat)
    ensures a + g + d <= |s| && MatchTwoWords(s) == WordsAt(s, a, g, d)
    ensures forall i | 0 <= i < a :: !IsSpace(s[i])
    ensures forall i | a <= i < a + g :: IsSpace(s[i])
    ensures forall i | a + g <= i < a + g + d :: !IsSpace(s[i])
    ensures a + g + d < |s| ==> IsSpace(s[a + g + d])
  {
    a := RunLength(s, 0, false);
    g := RunLength(s, a, true);
    d := RunLength(s, a + g, false);
    RunHolds(s, 0, false);
    RunHolds(s, a, true);
    RunHolds(s, a + g, false);
  }

  lemma CutIsWritten(s: string, a: nat, g: nat, d: nat)
    requires a > 0 && g > 0 && d > 0 && a + g + d <= |s|
    requires forall i | 0 <= i < a :: !IsSpace(s[i])
    requires forall i | a <= i < a + g :: IsSpace(s[i])
    requires forall i | a + g <= i < a + g + d :: !IsSpace(s[i])
    requires a + g + d < |s| ==> IsSpace(s[a + g + d])
    ensures AreTwoWords(s, s[..a], s[a..a + g], s[a + g..a + g + d], s[a + g + d..])
  {
    assert s[..a] == s[0..a];
    SliceIsWord(s, 0, a);
    SliceIsSpaces(s, a, a + g);
    SliceIsWord(s, a + g, a + g + d);
    InFour(s, a, g, d);
  }

  lemma ReadIsWritten(line: string, f: Fingerprint) returns (gap: string, rest: string)
    requires MatchFingerprint(line) == Some(f)
    ensures Written(line, f.algorithm, gap, f.digest, rest)
  {
    Halves(line, |FINGERPRINT|);
    gap, rest := TwoWordsAreWritten(line[|FINGERPRINT|..], f);
  }

  lemma InFour<T>(s: seq<T>, a: nat, g: nat, d: nat)
    requires a + g + d <= |s|
    ensures s == s[..a] + (s[a..a + g] + (s[a + g..a + g + d] + s[a + g + d..]))
  {
  }

  /**
   A line yields a fingerprint exactly when it is written as one: after the prefix, the algorithm, some spaces, and the
   whole digest up to the next space or the end.
   */
  lemma FingerprintIff(line: string, f: Fingerprint)
    ensures MatchFingerprint(line) == Some(f)
       <==> exists gap, rest :: Written(line, f.algorithm, gap, f.digest, rest)
  {
    if MatchFingerprint(line) == Some(f) {
      var gap, rest := ReadIsWritten(line, f);
    }
    if gap, rest :| Written(line, f.algorithm, gap, f.digest, rest) {
      WrittenIsRead(line, f.algorithm, gap, f.digest, rest);
    }
  }

  /** The prefixes of the other two kinds of line. */
  lemma PrefixesIff(line: string)
    ensures IsIdentity(line) <==> exists rest: string :: line == "a=identity:" + rest
    ensures IsMedia(line) <==> exists rest: string :: line == "m=" + rest
  {
    if IsIdentity(line) {
      assert line == "a=identity:" + line[11..];
    }
    if IsMedia(line) {
      assert line == "m=" + line[2..];
    }
  }

  /** The white space and line terminators of ECMAScript. */
  const WHITE_SPACE := "\t\n\U{0B}\U{0C}\r \U{A0}\U{1680}"
                       + "\U{2000}\U{2001}\U{2002}\U{2003}\U{2004}\U{2005}\U{2006}\U{2007}\U{2008}\U{2009}\U{200A}"
                       + "\U{2028}\U{2029}\U{202F}\U{205F}\U{3000}\U{FEFF}"

  /** They separate words, and nothing else does. */
  lemma WhatSeparates(c: char)
    ensures IsSpace(c) <==> c in WHITE_SPACE
  {
    var w := WHITE_SPACE;
    assert w[0] == '\t' && w[1] == '\n' && w[2] == '\U{0B}' && w[3] == '\U{0C}' && w[4] == '\r' && w[5] == ' ';
    assert w[6] == '\U{A0}' && w[7] == '\U{1680}';
    assert w[8] == '\U{2000}' && w[9] == '\U{2001}' && w[10] == '\U{2002}' && w[11] == '\U{2003}';
    assert w[12] == '\U{2004}' && w[13] == '\U{2005}' && w[14] == '\U{2006}' && w[15] == '\U{2007}';
    assert w[16] == '\U{2008}' && w[17] == '\U{2009}' && w[18] == '\U{200A}';
    assert w[19] == '\U{2028}' && w[20] == '\U{2029}' && w[21] == '\U{202F}' && w[22] == '\U{205F}';
    assert w[23] == '\U{3000}' && w[24] == '\U{FEFF}';
  }
}
