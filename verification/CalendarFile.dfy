/** The calendar file of a stay (apps/booking-web/lib/calendarFile.ts): line folding as in section 3.1
of RFC 5545 and TEXT escaping as in section 3.3.11, each with the reader that undoes it. */
module CalendarFile {
  import opened Options

  // ----- octets -----

  /** The octets of a character in UTF-8. */
  function Width(c: char): (w: nat)
    ensures 1 <= w <= 4
  {
    if c < 0x80 as char then 1 else if c < 0x800 as char then 2 else if c < '\U{10000}' then 3 else 4
  }

  /** A number in digits to the base 64. */
  function Six(n: nat): int { 0x80 + n % 64 }

  /** The character's octets, as section 3 of RFC 3629 lays its bits out. */
  function Utf8(n: nat): seq<int> {
    if n <= 0x7F then [n]
    else if n <= 0x7FF then [0xC0 + n / 64, Six(n)]
    else if n <= 0xFFFF then [0xE0 + n / 64 / 64, Six(n / 64), Six(n)]
    else [0xF0 + n / 64 / 64 / 64, Six(n / 64 / 64), Six(n / 64), Six(n)]
  }

  /** How many octets a lead octet announces. */
  function Announced(lead: int): int { if lead < 0x80 then 1 else if lead < 0xE0 then 2 else if lead < 0xF0 then 3 else 4 }

  predicate Continues(b: int) { 0x80 <= b < 0xC0 }

  /** The value that continuation octets add to the one before them. */
  function Carried(high: int, b: seq<int>): int
    decreases |b|
  {
    if b == [] then high else Carried(64 * high + (b[0] - 0x80), b[1..])
  }

  /** The value that the octets of a character carry. */
  function Value(b: seq<int>): int
    requires b != []
  {
    Carried(b[0] - (if |b| == 1 then 0 else if |b| == 2 then 0xC0 else if |b| == 3 then 0xE0 else 0xF0), b[1..])
  }

  lemma CarriedSix(high: int, n: nat, rest: seq<int>)
    requires high == n / 64
    ensures Carried(high, [Six(n)] + rest) == Carried(n, rest)
  {
    assert ([Six(n)] + rest)[1..] == rest;
  }

  lemma ValueOfUtf8(n: nat)
    ensures Value(Utf8(n)) == n
  {
    var m, k := n / 64, n / 64 / 64;
    if 0x7F < n <= 0x7FF {
      CarriedSix(m, n, []);
      assert Utf8(n)[1..] == [Six(n)] + [];
    } else if 0x7FF < n <= 0xFFFF {
      CarriedSix(k, m, [Six(n)] + []);
      CarriedSix(m, n, []);
      assert Utf8(n)[1..] == [Six(m)] + ([Six(n)] + []);
    } else if 0xFFFF < n {
      CarriedSix(k / 64, k, [Six(m)] + ([Six(n)] + []));
      CarriedSix(k, m, [Six(n)] + []);
      CarriedSix(m, n, []);
      assert Utf8(n)[1..] == [Six(k)] + ([Six(m)] + ([Six(n)] + []));
    }
  }

  /** The width is that of the UTF-8 form: as many octets as the lead octet announces, continuation octets after it, and
  together they carry the character. */
  lemma WidthIsUtf8(c: char)
    ensures |Utf8(c as int)| == Width(c) == Announced(Utf8(c as int)[0])
    ensures forall b :: b in Utf8(c as int)[1..] ==> Continues(b)
    ensures !Continues(Utf8(c as int)[0]) && Value(Utf8(c as int)) == c as int
  {
    ValueOfUtf8(c as int);
  }

  function Octets(s: string): nat {
    if s == [] then 0 else Width(s[0]) + Octets(s[1..])
  }

  lemma {:induction false} OctetsConcat(a: string, b: string)
    ensures Octets(a + b) == Octets(a) + Octets(b)
  {
    if a == [] {
      assert a + b == b;
    } else {
      assert (a + b)[1..] == a[1..] + b;
      OctetsConcat(a[1..], b);
    }
  }

  // ----- fold -----

  const FIRST := 75
  const NEXT := 74

  /** How many characters of the line fit in `limit` octets. */
  function Fill(line: string, limit: nat): (k: nat)
    ensures k <= |line|
    ensures limit >= 4 && line != [] ==> k >= 1
  {
    if line == [] || Width(line[0]) > limit then 0 else 1 + Fill(line[1..], limit - Width(line[0]))
  }

  /** The line cut greedily: as many characters as fit, then the rest on lines of 74. */
  function Parts(line: string, limit: nat): (parts: seq<string>)
    requires limit >= 4
    ensures parts != []
    decreases |line|
  {
    var k := Fill(line, limit);
    if k == |line| then [line] else [line[..k]] + Parts(line[k..], NEXT)
  }

  function Flatten(parts: seq<string>): string {
    if parts == [] then [] else parts[0] + Flatten(parts[1..])
  }

  function Join(parts: seq<string>, separator: string): string {
    if parts == [] then [] else if |parts| == 1 then parts[0] else parts[0] + separator + Join(parts[1..], separator)
  }

  const CRLF := "\r\n"
  const FOLD := "\r\n "

  function FoldText(line: string): string { Join(Parts(line, FIRST), FOLD) }

  lemma {:induction false} FillFits(line: string, limit: nat)
    ensures Octets(line[..Fill(line, limit)]) <= limit
    ensures Fill(line, limit) < |line| ==> Octets(line[..Fill(line, limit) + 1]) > limit
  {
    if line != [] && Width(line[0]) <= limit {
      var k := Fill(line[1..], limit - Width(line[0]));
      FillFits(line[1..], limit - Width(line[0]));
      assert line[..k + 1][1..] == line[1..][..k];
      if k + 1 < |line| { assert line[..k + 2][1..] == line[1..][..k + 1]; }
    } else if line != [] {
      assert line[..1] == [line[0]];
    }
  }

  /** Fill is the greatest prefix that fits. */
  lemma {:induction false} FillIsMost(line: string, limit: nat, k: nat)
    requires k <= |line| && Octets(line[..k]) <= limit
    ensures k <= Fill(line, limit)
  {
    if k > 0 {
      assert line[..k][1..] == line[1..][..k - 1];
      FillIsMost(line[1..], limit - Width(line[0]), k - 1);
    }
  }

  /** A legal cutting: nothing lost, the first piece within the limit, the others within 74 octets. */
  ghost predicate LegalCut(parts: seq<string>, line: string, limit: nat) {
    && parts != [] && Flatten(parts) == line
    && Octets(parts[0]) <= limit
    && forall k :: 1 <= k < |parts| ==> Octets(parts[k]) <= NEXT
  }

  lemma {:induction false} PartsAreLegal(line: string, limit: nat)
    requires limit >= 4
    ensures LegalCut(Parts(line, limit), line, limit)
    decreases |line|
  {
    var k := Fill(line, limit);
    FillFits(line, limit);
    var parts := Parts(line, limit);
    if k == |line| {
      assert line[..k] == line;
      assert Flatten(parts[1..]) == [];
      assert Flatten(parts) == line + [];
    } else {
      PartsAreLegal(line[k..], NEXT);
      assert parts[1..] == Parts(line[k..], NEXT);
      assert Flatten(parts) == line[..k] + line[k..];
    }
  }

  /** No legal cutting of a line, or of any line it ends with, has fewer pieces. */
  lemma {:induction false} NoFewerParts(line: string, limit: nat, cut: seq<string>, whole: string)
    requires limit >= 4 && LegalCut(cut, whole, limit)
    requires |line| <= |whole| && line == whole[|whole| - |line|..]
    ensures |Parts(line, limit)| <= |cut|
    decreases |cut|
  {
    var k := Fill(line, limit);
    if k < |line| {
      FillFits(line, limit);
      var rest := Flatten(cut[1..]);
      assert whole == cut[0] + rest;
      assert |cut| == 1 ==> rest == [];
      PieceInReach(line, limit, cut[0], rest);
      NoFewerParts(line[k..], NEXT, cut[1..], rest);
    }
  }

  /** After the greedy piece, what is left of the line is an end of what any other cutting has left. */
  lemma {:induction false} PieceInReach(line: string, limit: nat, piece: string, rest: string)
    requires Octets(piece) <= limit
    requires |line| <= |piece + rest| && line == (piece + rest)[|piece + rest| - |line|..]
    ensures var k := Fill(line, limit);
            |line| - k <= |rest| && line[k..] == rest[|rest| - (|line| - k)..]
  {
    var k := Fill(line, limit);
    if |line| > |rest| {
      var head := line[..|line| - |rest|];
      var drop := |piece| - |head|;
      assert piece[drop..] == head;
      assert piece == piece[..drop] + piece[drop..];
      OctetsConcat(piece[..drop], piece[drop..]);
      FillIsMost(line, limit, |head|);
    }
  }

  function Limit(parts: seq<string>): nat { if parts == [] then FIRST else NEXT }

  /** What `fold` has after the characters before i: finished pieces and the current one. */
  ghost predicate Folding(line: string, parts: seq<string>, current: string, i: nat)
    requires i <= |line|
  {
    && Octets(current) <= Limit(parts)
    && Parts(line, FIRST) == parts + Parts(current + line[i..], Limit(parts))
  }

  lemma {:induction false} FoldStart(line: string)
    ensures Folding(line, [], "", 0)
  {
    assert "" + line[0..] == line;
    assert Parts(line, FIRST) == [] + Parts(line, FIRST);
  }

  lemma {:induction false} FoldKeep(line: string, parts: seq<string>, current: string, i: nat)
    requires i < |line| && Folding(line, parts, current, i) && Octets(current + [line[i]]) <= Limit(parts)
    ensures Folding(line, parts, current + [line[i]], i + 1)
  {
    assert current + [line[i]] + line[i + 1..] == current + line[i..];
  }

  lemma {:induction false} FoldBreak(line: string, parts: seq<string>, current: string, i: nat)
    requires i < |line| && Folding(line, parts, current, i) && Octets(current + [line[i]]) > Limit(parts)
    ensures Folding(line, parts + [current], [line[i]], i + 1)
  {
    var rest := line[i..];
    FoldStep(current, rest, Limit(parts));
    assert parts + ([current] + Parts(rest, NEXT)) == (parts + [current]) + Parts(rest, NEXT);
    assert [line[i]] + line[i + 1..] == rest;
  }

  lemma {:induction false} FoldEnd(line: string, parts: seq<string>, current: string)
    requires Folding(line, parts, current, |line|)
    ensures Parts(line, FIRST) == parts + [current]
  {
    assert current + line[|line|..] == current;
    FillsWhole(current, Limit(parts));
  }

  /** `fold`: characters are added to the current piece while it fits. */
  method Fold(line: string) returns (text: string)
    ensures text == FoldText(line)
  {
    var parts: seq<string> := [];
    var current := "";
    FoldStart(line);
    for i := 0 to |line|
      invariant Folding(line, parts, current, i)
    {
      if Octets(current + [line[i]]) > Limit(parts) {
        FoldBreak(line, parts, current, i);
        parts := parts + [current];
        current := "";
        assert current + [line[i]] == [line[i]];
      } else {
        FoldKeep(line, parts, current, i);
      }
      current := current + [line[i]];
    }
    FoldEnd(line, parts, current);
    parts := parts + [current];
    text := Join(parts, FOLD);
  }

  lemma {:induction false} FillsWhole(line: string, limit: nat)
    requires Octets(line) <= limit
    ensures Fill(line, limit) == |line|
  {
    assert line[..|line|] == line;
    FillIsMost(line, limit, |line|);
  }

  /** When the next character does not fit, the current piece is exactly the greedy piece. */
  lemma {:induction false} FoldStep(current: string, rest: string, limit: nat)
    requires rest != [] && limit >= 4 && Octets(current) <= limit
    ensures Octets(current + [rest[0]]) == Octets(current) + Width(rest[0])
    ensures Octets(current + [rest[0]]) > limit ==>
              current != [] && Parts(current + rest, limit) == [current] + Parts(rest, NEXT)
  {
    OctetsConcat(current, [rest[0]]);
    if Octets(current + [rest[0]]) > limit {
      var line := current + rest;
      assert line[..|current|] == current && line[|current|..] == rest;
      FillIsMost(line, limit, |current|);
      FillFits(line, limit);
      var k := Fill(line, limit);
      if k > |current| {
        assert line[..k] == current + [rest[0]] + line[|current| + 1..k];
        OctetsConcat(current + [rest[0]], line[|current| + 1..k]);
      }
    }
  }

  // ----- unfolding -----

  predicate IsBlank(c: char) { c == ' ' || c == '\t' }

  /** A line break followed by white space, as section 3.1 tells readers to remove. */
  predicate StartsFold(s: string) { |s| >= 3 && s[0] == '\r' && s[1] == '\n' && IsBlank(s[2]) }

  function Unfold(s: string): string {
    if s == [] then [] else if StartsFold(s) then Unfold(s[3..]) else [s[0]] + Unfold(s[1..])
  }

  predicate HasFold(s: string) { exists i :: 0 <= i < |s| && StartsFold(s[i..]) }

  lemma {:induction false} UnfoldShrinks(s: string)
    ensures |Unfold(s)| <= |s|
    ensures Unfold(s) == s <==> !HasFold(s)
    ensures Unfold(s) != s ==> |Unfold(s)| < |s|
    decreases |s|
  {
    if s != [] {
      if StartsFold(s) {
        UnfoldShrinks(s[3..]);
        assert s[0..] == s;
        assert HasFold(s);
      } else {
        UnfoldShrinks(s[1..]);
        if HasFold(s) {
          var i :| 0 <= i < |s| && StartsFold(s[i..]);
          assert s[0..] == s;
          assert s[i..] == s[1..][i - 1..];
        }
        if i :| 0 <= i < |s[1..]| && StartsFold(s[1..][i..]) {
          assert s[1..][i..] == s[i + 1..];
        }
      }
    }
  }

  /** A break that starts after p does not make p start a fold. */
  lemma StillNoFold(p: string, rest: string)
    requires p != [] && !StartsFold(p) && rest != [] && rest[0] == '\r'
    ensures !StartsFold(p + rest)
  {
  }

  /** Unfolding splits before any carriage return. */
  lemma {:induction false} UnfoldSplits(p: string, rest: string)
    requires rest != [] && rest[0] == '\r'
    ensures Unfold(p + rest) == Unfold(p) + Unfold(rest)
    decreases |p|
  {
    var s := p + rest;
    if p == [] {
      assert s == rest;
    } else if StartsFold(p) {
      assert s[3..] == p[3..] + rest;
      UnfoldSplits(p[3..], rest);
    } else {
      StillNoFold(p, rest);
      assert s[1..] == p[1..] + rest;
      UnfoldSplits(p[1..], rest);
      assert Unfold(s) == [p[0]] + (Unfold(p[1..]) + Unfold(rest));
    }
  }

  lemma {:induction false} UnfoldAcrossFold(p: string, rest: string)
    ensures Unfold(p + FOLD + rest) == Unfold(p) + Unfold(rest)
  {
    var s := FOLD + rest;
    assert s[3..] == rest;
    UnfoldSplits(p, s);
    assert p + FOLD + rest == p + s;
  }

  lemma {:induction false} UnfoldAcrossBreak(p: string, rest: string)
    requires rest == [] || !IsBlank(rest[0])
    ensures Unfold(p + CRLF + rest) == Unfold(p) + CRLF + Unfold(rest)
  {
    var s := CRLF + rest;
    assert !StartsFold(s);
    assert s[1..] == ['\n'] + rest && (['\n'] + rest)[1..] == rest;
    UnfoldSplits(p, s);
    assert p + CRLF + rest == p + s;
  }

  function UnfoldEach(parts: seq<string>): string {
    if parts == [] then [] else Unfold(parts[0]) + UnfoldEach(parts[1..])
  }

  lemma {:induction false} UnfoldJoined(parts: seq<string>)
    requires parts != []
    ensures Unfold(Join(parts, FOLD)) == UnfoldEach(parts)
  {
    if |parts| == 1 {
      assert UnfoldEach(parts[1..]) == [];
    } else {
      UnfoldJoined(parts[1..]);
      UnfoldAcrossFold(parts[0], Join(parts[1..], FOLD));
    }
  }

  lemma {:induction false} UnfoldEachShrinks(parts: seq<string>)
    ensures |UnfoldEach(parts)| <= |Flatten(parts)|
    ensures UnfoldEach(parts) == Flatten(parts) <==> forall k :: 0 <= k < |parts| ==> !HasFold(parts[k])
    ensures UnfoldEach(parts) != Flatten(parts) ==> |UnfoldEach(parts)| < |Flatten(parts)|
  {
    if parts != [] {
      UnfoldShrinks(parts[0]);
      UnfoldEachShrinks(parts[1..]);
      assert (forall k :: 0 <= k < |parts| ==> !HasFold(parts[k])) <==>
             !HasFold(parts[0]) && forall k :: 0 <= k < |parts[1..]| ==> !HasFold(parts[1..][k]);
      if UnfoldEach(parts) == Flatten(parts) {
        assert |Unfold(parts[0])| == |parts[0]|;
      }
    }
  }

  /** Unfolding undoes folding exactly when no piece carries a fold of its own. */
  lemma FoldThenUnfold(line: string)
    ensures Unfold(FoldText(line)) == line <==> forall k :: 0 <= k < |Parts(line, FIRST)| ==> !HasFold(Parts(line, FIRST)[k])
  {
    UnfoldJoined(Parts(line, FIRST));
    UnfoldEachShrinks(Parts(line, FIRST));
    PartsAreLegal(line, FIRST);
  }

  lemma {:induction false} PieceInLine(parts: seq<string>, k: nat, c: char)
    requires k < |parts| && c in parts[k]
    ensures c in Flatten(parts)
  {
    if k > 0 { PieceInLine(parts[1..], k - 1, c); }
  }

  lemma FoldInFront(p: string, rest: string)
    requires HasFold(p)
    ensures HasFold(p + rest)
  {
    var i :| 0 <= i < |p| && StartsFold(p[i..]);
    assert (p + rest)[i..] == p[i..] + rest;
  }

  lemma FoldBehind(p: string, rest: string)
    requires HasFold(rest)
    ensures HasFold(p + rest)
  {
    var i :| 0 <= i < |rest| && StartsFold(rest[i..]);
    assert (p + rest)[|p| + i..] == rest[i..];
  }

  /** A fold in a piece is a fold in the line. */
  lemma {:induction false} FoldInLine(parts: seq<string>, k: nat)
    requires k < |parts| && HasFold(parts[k])
    ensures HasFold(Flatten(parts))
  {
    if k == 0 {
      FoldInFront(parts[0], Flatten(parts[1..]));
    } else {
      FoldInLine(parts[1..], k - 1);
      FoldBehind(parts[0], Flatten(parts[1..]));
    }
  }

  /** A line without a fold of its own, so every line without a line feed, always comes back; a fold of its own would
  be lost. */
  lemma LinesUnfold(line: string)
    ensures !HasFold(line) ==> Unfold(FoldText(line)) == line
    ensures '\n' !in line ==> !HasFold(line)
    ensures Unfold(FoldText("a\r\n b")) == "ab"
  {
    FoldThenUnfold(line);
    PartsAreLegal(line, FIRST);
    var parts := Parts(line, FIRST);
    forall k | 0 <= k < |parts| && !HasFold(line) ensures !HasFold(parts[k]) {
      if HasFold(parts[k]) { FoldInLine(parts, k); }
    }
    forall i | 0 <= i < |line| && StartsFold(line[i..]) ensures '\n' in line { assert line[i..][1] == line[i + 1]; }
    var own := "a\r\n b";
    assert Octets(own) == 5;
    FillsWhole(own, FIRST);
    assert own[1..] == "\r\n b" && own[1..][3..] == "b" && "b"[1..] == "";
  }

  // ----- escapeText -----

  function ReplaceChar(s: string, c: char, with: string): string {
    if s == [] then [] else (if s[0] == c then with else [s[0]]) + ReplaceChar(s[1..], c, with)
  }

  predicate StartsBreak(s: string) { |s| >= 2 && s[0] == '\r' && s[1] == '\n' }

  /** The last replacement: a line feed, with the carriage return before it if there is one. */
  function ReplaceBreaks(s: string): string {
    if s == [] then []
    else if s[0] == '\n' then "\\n" + ReplaceBreaks(s[1..])
    else if StartsBreak(s) then "\\n" + ReplaceBreaks(s[2..])
    else [s[0]] + ReplaceBreaks(s[1..])
  }

  function ThreeReplacements(s: string): string {
    ReplaceChar(ReplaceChar(ReplaceChar(s, '\\', "\\\\"), ';', "\\;"), ',', "\\,")
  }

  function EscapeText(value: string): string { ReplaceBreaks(ThreeReplacements(value)) }

  /** The same escape as one pass over the text. */
  function EscapeOnce(s: string): string {
    if s == [] then []
    else if s[0] == '\\' then "\\\\" + EscapeOnce(s[1..])
    else if s[0] == ';' then "\\;" + EscapeOnce(s[1..])
    else if s[0] == ',' then "\\," + EscapeOnce(s[1..])
    else if s[0] == '\n' then "\\n" + EscapeOnce(s[1..])
    else if StartsBreak(s) then "\\n" + EscapeOnce(s[2..])
    else [s[0]] + EscapeOnce(s[1..])
  }

  lemma {:induction false} ReplaceCharConcat(a: string, b: string, c: char, with: string)
    ensures ReplaceChar(a + b, c, with) == ReplaceChar(a, c, with) + ReplaceChar(b, c, with)
  {
    if a == [] {
      assert a + b == b;
    } else {
      assert (a + b)[1..] == a[1..] + b;
      ReplaceCharConcat(a[1..], b, c, with);
    }
  }

  function EscapedChar(c: char): string {
    if c == '\\' then "\\\\" else if c == ';' then "\\;" else if c == ',' then "\\," else [c]
  }

  lemma {:induction false} ReplaceOne(x: char, c: char, with: string)
    ensures ReplaceChar([x], c, with) == if x == c then with else [x]
  {
    assert [x][1..] == [];
    assert ReplaceChar([x], c, with) == (if x == c then with else [x]) + [];
  }

  lemma {:induction false} ReplaceTwo(x: char, y: char, c: char, with: string)
    requires x != c && y != c
    ensures ReplaceChar([x, y], c, with) == [x, y]
  {
    ReplaceOne(x, c, with);
    ReplaceOne(y, c, with);
    ReplaceCharConcat([x], [y], c, with);
    assert [x] + [y] == [x, y];
  }

  lemma {:induction false} ThreeOfOne(c: char)
    ensures ThreeReplacements([c]) == EscapedChar(c)
  {
    ReplaceOne(c, '\\', "\\\\");
    if c == '\\' {
      ReplaceTwo('\\', '\\', ';', "\\;");
      ReplaceTwo('\\', '\\', ',', "\\,");
    } else {
      ReplaceOne(c, ';', "\\;");
      if c == ';' {
        ReplaceTwo('\\', ';', ',', "\\,");
      } else {
        ReplaceOne(c, ',', "\\,");
      }
    }
  }

  lemma {:induction false} ThreeConcat(a: string, b: string)
    ensures ThreeReplacements(a + b) == ThreeReplacements(a) + ThreeReplacements(b)
  {
    ReplaceCharConcat(a, b, '\\', "\\\\");
    var a1, b1 := ReplaceChar(a, '\\', "\\\\"), ReplaceChar(b, '\\', "\\\\");
    ReplaceCharConcat(a1, b1, ';', "\\;");
    ReplaceCharConcat(ReplaceChar(a1, ';', "\\;"), ReplaceChar(b1, ';', "\\;"), ',', "\\,");
  }

  lemma {:induction false} ThreeByHead(s: string)
    requires s != []
    ensures ThreeReplacements(s) == EscapedChar(s[0]) + ThreeReplacements(s[1..])
  {
    assert s == [s[0]] + s[1..];
    ThreeConcat([s[0]], s[1..]);
    ThreeOfOne(s[0]);
  }

  lemma {:induction false} BreaksPassPair(x: char, rest: string)
    requires x != '\n' && x != '\r'
    ensures ReplaceBreaks(['\\', x] + rest) == ['\\', x] + ReplaceBreaks(rest)
  {
    var s := ['\\', x] + rest;
    assert s[1..] == [x] + rest && ([x] + rest)[1..] == rest;
  }

  /** The chain of four replacements is the single pass. */
  lemma {:induction false} ChainIsOnePass(s: string)
    ensures EscapeText(s) == EscapeOnce(s)
    decreases |s|
  {
    if s != [] {
      var c, rest := s[0], ThreeReplacements(s[1..]);
      ThreeByHead(s);
      ChainIsOnePass(s[1..]);
      if c == '\\' || c == ';' || c == ',' {
        BreaksPassPair(c, rest);
        assert EscapedChar(c) == ['\\', c];
      } else {
        var t := [c] + rest;
        assert t[1..] == rest;
        if s[1..] != [] {
          ThreeByHead(s[1..]);
          assert rest[0] == '\n' <==> s[1] == '\n';
        }
        if StartsBreak(s) {
          ChainIsOnePass(s[2..]);
          assert EscapedChar('\n') == ['\n'] && s[1..][1..] == s[2..];
          assert t[2..] == ThreeReplacements(s[2..]);
        }
      }
    }
  }

  // ----- unescaping -----

  /** A TEXT value read back: backslash, semicolon and comma after a backslash, and `n` or `N` for a line feed. */
  function Unescape(s: string): string {
    if s == [] then []
    else if s[0] == '\\' && |s| >= 2 && (s[1] == '\\' || s[1] == ';' || s[1] == ',') then [s[1]] + Unescape(s[2..])
    else if s[0] == '\\' && |s| >= 2 && (s[1] == 'n' || s[1] == 'N') then ['\n'] + Unescape(s[2..])
    else [s[0]] + Unescape(s[1..])
  }

  /** The text with every CRLF read as LF. */
  function Normalized(s: string): string {
    if s == [] then []
    else if StartsBreak(s) then ['\n'] + Normalized(s[2..])
    else [s[0]] + Normalized(s[1..])
  }

  /** The first unit of the single pass: what it emits, what it stands for, and where it goes on. */
  function HeadOut(v: string): string
    requires v != []
  {
    if StartsBreak(v) || v[0] == '\n' then ['\\', 'n']
    else if v[0] == '\\' || v[0] == ';' || v[0] == ',' then ['\\', v[0]]
    else [v[0]]
  }

  function HeadMeans(v: string): char
    requires v != []
  {
    if StartsBreak(v) then '\n' else v[0]
  }

  function HeadNext(v: string): string
    requires v != []
  {
    if StartsBreak(v) then v[2..] else v[1..]
  }

  lemma {:induction false} ByHead(v: string)
    requires v != []
    ensures EscapeOnce(v) == HeadOut(v) + EscapeOnce(HeadNext(v))
    ensures Normalized(v) == [HeadMeans(v)] + Normalized(HeadNext(v))
  {
  }

  lemma {:induction false} UnescapeHead(v: string, rest: string)
    requires v != []
    ensures Unescape(HeadOut(v) + rest) == [HeadMeans(v)] + Unescape(rest)
  {
    var s := HeadOut(v) + rest;
    if |HeadOut(v)| == 2 {
      assert s[2..] == rest;
    } else {
      assert s[1..] == rest;
    }
  }

  /** The step of the round trip, for any reader: it only regroups concatenations. */
  lemma {:induction false} Regroup(read: string -> string, out: string, means: char, escaped: string, plain: string, tail: string)
    requires read(out + (escaped + tail)) == [means] + read(escaped + tail)
    requires read(escaped + tail) == plain + read(tail)
    ensures read((out + escaped) + tail) == ([means] + plain) + read(tail)
  {
    assert (out + escaped) + tail == out + (escaped + tail);
    assert [means] + (plain + read(tail)) == ([means] + plain) + read(tail);
  }

  /** Unescaping an escaped text, with anything after it, gives the text back with CRLF read as LF. */
  lemma {:induction false} EscapeThenUnescape(v: string, tail: string)
    ensures Unescape(EscapeOnce(v) + tail) == Normalized(v) + Unescape(tail)
    decreases |v|
  {
    if v == [] {
      assert EscapeOnce(v) + tail == tail;
    } else {
      ByHead(v);
      EscapeThenUnescape(HeadNext(v), tail);
      UnescapeHead(v, EscapeOnce(HeadNext(v)) + tail);
      Regroup(Unescape, HeadOut(v), HeadMeans(v), EscapeOnce(HeadNext(v)), Normalized(HeadNext(v)), tail);
    }
  }

  /** An escaped text has no line feed left. */
  lemma {:induction false} EscapedHasNoBreak(v: string)
    ensures '\n' !in EscapeOnce(v)
    decreases |v|
  {
    if v != [] {
      ByHead(v);
      EscapedHasNoBreak(HeadNext(v));
    }
  }

  /** A TEXT value of section 3.3.11 of RFC 5545: backslashes only in the four escapes, no bare semicolon, comma or line
  feed. */
  predicate LegalText(s: string) {
    if s == [] then true
    else if s[0] == '\\' then |s| >= 2 && (s[1] == '\\' || s[1] == ';' || s[1] == ',' || s[1] == 'n' || s[1] == 'N') && LegalText(s[2..])
    else s[0] != ';' && s[0] != ',' && s[0] != '\n' && LegalText(s[1..])
  }

  lemma {:induction false} EscapedOnceIsLegal(v: string)
    ensures LegalText(EscapeOnce(v))
    decreases |v|
  {
    if v != [] {
      if StartsBreak(v) { EscapedOnceIsLegal(v[2..]); } else { EscapedOnceIsLegal(v[1..]); }
    }
  }

  /** Every escaped text is a TEXT value. */
  lemma EscapedIsLegal(v: string)
    ensures LegalText(EscapeText(v))
  {
    ChainIsOnePass(v);
    EscapedOnceIsLegal(v);
  }
}
