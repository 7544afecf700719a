/**
 * What the parser takes for a header: the first blank line ends it, and the first
 * line that names a content length, in whatever case, announces the content.
 */
module LspHeaders {
  import opened GoalTypes
  import opened ByteStrings
  import opened LspFraming

  /** CR LF CR LF. */
  predicate IsBlankLineAt(buffer: Bytes, i: nat) {
    i + 4 <= |buffer| && buffer[i..i + 4] == [13, 10, 13, 10]
  }

  predicate IsFirstBlankLine(buffer: Bytes, i: nat) {
    IsBlankLineAt(buffer, i) && forall j :: 0 <= j < i ==> !IsBlankLineAt(buffer, j)
  }

  predicate StartsLine(h: Bytes, p: nat) {
    p == 0 || (2 <= p <= |h| && h[p - 2] == 13 && h[p - 1] == 10)
  }

  /** The letter in either case; anything else as it is. */
  predicate SpellsLetter(b: Byte, c: char) {
    b == c as int || ('a' <= c <= 'z' && b == c as int - 32)
  }

  predicate NamesLength(h: Bytes, p: nat) {
    p + 15 <= |h| && forall j :: 0 <= j < 15 ==> SpellsLetter(h[p + j], "content-length:"[j])
  }

  predicate IsNumberAt(h: Bytes, k: nat, m: nat) {
    && k < m <= |h|
    && (forall j :: k <= j < m ==> 48 <= h[j] <= 57)
    && (m < |h| ==> !(48 <= h[m] <= 57))
  }

  predicate IsSpaceBetween(h: Bytes, from: nat, to: nat) {
    from <= to <= |h| && forall j :: from <= j < to ==> h[j] in {9, 10, 11, 12, 13, 32}
  }

  /** A line starts at `p` that names a length, and its digits are those from `k` to `m`. */
  predicate AnnouncesAt(h: Bytes, p: nat, k: nat, m: nat) {
    StartsLine(h, p) && NamesLength(h, p) && IsSpaceBetween(h, p + 15, k) && IsNumberAt(h, k, m)
  }

  ghost predicate IsAnnouncement(h: Bytes, p: nat, n: nat) {
    exists k: nat, m: nat :: AnnouncesAt(h, p, k, m) && n == Value(h[k..m])
  }

  ghost predicate Announces(h: Bytes, n: nat) {
    exists p: nat :: IsAnnouncement(h, p, n) && forall q: nat, l :: q < p ==> !IsAnnouncement(h, q, l)
  }

  lemma BlankLineIs(buffer: Bytes)
    ensures forall i: nat :: IsFirstBlankLine(buffer, i) <==> IndexOfSeparator(buffer, 0) == Some(i)
  {
    forall i: nat
      ensures IsBlankLineAt(buffer, i) <==> SeparatorAt(buffer, i)
    {
      if i + 4 <= |buffer| {
        assert buffer[i..i + 4] == [buffer[i], buffer[i + 1], buffer[i + 2], buffer[i + 3]];
      }
    }
  }

  lemma NameIs(h: Bytes, p: nat)
    ensures NamesLength(h, p) <==> NameAt(h, p)
  {
    if p + 15 <= |h| {
      forall j | 0 <= j < 15
        ensures SpellsLetter(h[p + j], "content-length:"[j]) <==> Lower(h[p + j]) == NAME[j] as int
      {
      }
    }
  }

  lemma DigitsAre(h: Bytes, p: nat, k: nat, m: nat)
    requires AnnouncesAt(h, p, k, m)
    ensures SkipBlanks(h, p + 15) == k && DigitsEnd(h, k) == m
  {
  }

  lemma LengthIs(h: Bytes, p: nat, n: nat)
    requires StartsLine(h, p)
    ensures LengthAt(h, p) == Some(n) <==> IsAnnouncement(h, p, n)
  {
    hide StartsLine, Value;
    NameIs(h, p);
    if LengthAt(h, p) == Some(n) {
      var k := SkipBlanks(h, p + 15);
      assert AnnouncesAt(h, p, k, DigitsEnd(h, k));
    }
    if IsAnnouncement(h, p, n) {
      var k: nat, m: nat :| AnnouncesAt(h, p, k, m) && n == Value(h[k..m]);
      DigitsAre(h, p, k, m);
    }
  }

  /** Where the search from `p` can still find a line. */
  predicate IsAhead(h: Bytes, p: nat, q: nat) {
    StartsLine(h, q) && (q >= p + 2 || (p == 0 && q == 0))
  }

  lemma {:induction false} LeftmostIsFound(h: Bytes, p: nat)
    ensures forall n :: FindLength(h, p) == Some(n) ==>
        exists q: nat :: IsAhead(h, p, q) && LengthAt(h, q) == Some(n)
          && forall r: nat :: IsAhead(h, p, r) && r < q ==> LengthAt(h, r).None?
    ensures FindLength(h, p).None? ==> forall r: nat :: IsAhead(h, p, r) ==> LengthAt(h, r).None?
    decreases |h| - p
  {
    hide LengthAt;
    if p == 0 && LengthAt(h, 0).Some? {
      assert IsAhead(h, p, 0);
    } else if p + 2 <= |h| {
      if h[p] == CR && h[p + 1] == LF && LengthAt(h, p + 2).Some? {
        assert IsAhead(h, p, p + 2);
      } else {
        LeftmostIsFound(h, p + 1);
        forall r: nat | IsAhead(h, p, r) && LengthAt(h, r).Some?
          ensures IsAhead(h, p + 1, r)
        {
        }
        forall r: nat | IsAhead(h, p + 1, r)
          ensures IsAhead(h, p, r)
        {
        }
      }
    } else {
      PastTheEnd(h, p);
    }
  }

  lemma PastTheEnd(h: Bytes, p: nat)
    requires p + 2 > |h|
    ensures forall r: nat :: IsAhead(h, p, r) ==> p == 0 == r
  {
  }

  lemma AnnouncementStartsLine(h: Bytes, p: nat, n: nat)
    ensures IsAnnouncement(h, p, n) ==> IsAhead(h, 0, p)
  {
    hide NamesLength, IsSpaceBetween, IsNumberAt;
    assert p == 1 ==> !StartsLine(h, p);
  }

  /** The length found is the one announced first. */
  lemma LengthFoundIff(h: Bytes, n: nat)
    ensures FindLength(h, 0) == Some(n) <==> Announces(h, n)
  {
    hide FindLength, LengthAt, IsAnnouncement;
    LeftmostIsFound(h, 0);
    forall p: nat, l: nat
      ensures IsAnnouncement(h, p, l) <==> IsAhead(h, 0, p) && LengthAt(h, p) == Some(l)
    {
      AnnouncementStartsLine(h, p, l);
      if StartsLine(h, p) {
        LengthIs(h, p, l);
      }
    }
    if FindLength(h, 0) == Some(n) {
      var q: nat :| IsAhead(h, 0, q) && LengthAt(h, q) == Some(n)
          && forall r: nat :: IsAhead(h, 0, r) && r < q ==> LengthAt(h, r).None?;
      assert IsAnnouncement(h, q, n);
    }
    if Announces(h, n) {
      var p: nat :| IsAnnouncement(h, p, n) && forall q: nat, l :: q < p ==> !IsAnnouncement(h, q, l);
      var found := FindLength(h, 0);
      assert found.Some?;
      var q: nat :| IsAhead(h, 0, q) && LengthAt(h, q) == found
          && forall r: nat :: IsAhead(h, 0, r) && r < q ==> LengthAt(h, r).None?;
      assert IsAnnouncement(h, q, found.value);
      assert q == p;
    }
  }

  lemma CutIs(s: Bytes, n: nat, body: Bytes, rest: Bytes)
    ensures |body| == n && s == body + rest <==> n <= |s| && body == s[..n] && rest == s[n..]
  {
    if |body| == n && s == body + rest {
      assert (body + rest)[..n] == body && (body + rest)[n..] == rest;
    }
  }

  /** The front of a buffer, given where its first blank line is. */
  lemma FrontBehind(buffer: Bytes, i: nat, body: Bytes, rest: Bytes)
    requires IndexOfSeparator(buffer, 0) == Some(i)
    ensures var length := FindLength(Ascii(buffer[..i]), 0);
      && (Front(buffer) == Content(body, rest) <==> length == Some(|body|) && buffer[i + 4..] == body + rest)
      && (Front(buffer) == BadHeader(rest) <==> length == None && buffer[i + 4..] == rest)
  {
    hide FindLength, IndexOfSeparator, Ascii;
    var length := FindLength(Ascii(buffer[..i]), 0);
    if length.Some? {
      var s, n := buffer[i + 4..], length.value;
      CutIs(s, n, body, rest);
      if n <= |s| {
        assert s[..n] == buffer[i + 4..i + 4 + n] && s[n..] == buffer[i + 4 + n..];
      }
    }
  }

  /**
   * A content is taken from the buffer exactly when a header ends at the first blank
   * line, announces a length, and that many bytes have arrived behind it; a
   * header that announces none is skipped.
   */
  lemma ContentIsTakenIff(buffer: Bytes, body: Bytes, rest: Bytes)
    ensures Front(buffer) == Content(body, rest) <==>
      exists i: nat :: IsFirstBlankLine(buffer, i) && Announces(Ascii(buffer[..i]), |body|)
        && buffer[i + 4..] == body + rest
    ensures Front(buffer) == BadHeader(rest) <==>
      exists i: nat :: IsFirstBlankLine(buffer, i) && (forall n :: !Announces(Ascii(buffer[..i]), n))
        && buffer[i + 4..] == rest
  {
    BlankLineIs(buffer);
    var separator := IndexOfSeparator(buffer, 0);
    if separator.Some? {
      hide FindLength, IndexOfSeparator, Announces, Ascii, Front, IsBlankLineAt;
      var i := separator.value;
      assert IsFirstBlankLine(buffer, i);
      var h := Ascii(buffer[..i]);
      forall n: nat
        ensures FindLength(h, 0) == Some(n) <==> Announces(h, n)
      {
        LengthFoundIff(h, n);
      }
      FrontBehind(buffer, i, body, rest);
    }
  }
}
