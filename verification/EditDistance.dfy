/** Amenity matching (apps/booking-admin/lib/parseBookingAmenities.ts).

The reference notion of distance is independent of the table the code fills: the least number of
single-character edits that turns one text into the other, where an edit may touch any position.
The one-row loop is proved to return exactly that number, and the metric laws follow from scripts. */
module EditDistance {

  /** A JavaScript string is a sequence of UTF-16 code units. */
  type CodeUnit = x: int | 0 <= x < 0x10000
  type Text = seq<CodeUnit>

  // ----- edits and scripts: the reference -----

  datatype Edit = Insert(at: nat, unit: CodeUnit) | Delete(at: nat) | Substitute(at: nat, unit: CodeUnit)

  predicate Applicable(e: Edit, s: Text) {
    match e
    case Insert(p, _) => p <= |s|
    case Delete(p) => p < |s|
    case Substitute(p, _) => p < |s|
  }

  function Apply(e: Edit, s: Text): Text
    requires Applicable(e, s)
  {
    match e
    case Insert(p, c) => s[..p] + [c] + s[p..]
    case Delete(p) => s[..p] + s[p + 1..]
    case Substitute(p, c) => s[p := c]
  }

  /** The script runs on s, edit after edit, and ends in t. */
  ghost predicate Turns(script: seq<Edit>, s: Text, t: Text) {
    if script == [] then s == t
    else Applicable(script[0], s) && Turns(script[1..], Apply(script[0], s), t)
  }

  /** n is the length of the shortest script from s to t. */
  ghost predicate Cheapest(s: Text, t: Text, n: nat) {
    && (exists script :: Turns(script, s, t) && |script| == n)
    && (forall script :: Turns(script, s, t) ==> n <= |script|)
  }

  // ----- the table, cell by cell -----

  function Min(a: int, b: int): int { if a < b then a else b }

  function Init(s: Text): Text
    requires s != []
  {
    s[..|s| - 1]
  }

  function Last(s: Text): CodeUnit
    requires s != []
  {
    s[|s| - 1]
  }

  /** The recurrence the table follows, on whole texts instead of table cells. */
  function Distance(a: Text, b: Text): nat
    decreases |a| + |b|
  {
    if a == [] then |b|
    else if b == [] then |a|
    else Min(Min(Distance(Init(a), b) + 1, Distance(a, Init(b)) + 1),
             Distance(Init(a), Init(b)) + (if Last(a) == Last(b) then 0 else 1))
  }

  lemma {:induction false} DistanceToSelf(a: Text)
    ensures Distance(a, a) == 0
  {
    if a != [] { DistanceToSelf(Init(a)); }
  }

  /** Appending one unit moves a distance by at most one, in either direction. */
  lemma {:induction false} AppendMoves(a: Text, s: Text, c: CodeUnit)
    ensures Distance(a, s + [c]) <= Distance(a, s) + 1
    ensures Distance(a, s) <= Distance(a, s + [c]) + 1
    decreases |a|
  {
    assert Init(s + [c]) == s;
    if a != [] {
      AppendMoves(Init(a), s, c);
      if s != [] { assert Distance(a, s) <= Distance(Init(a), s) + 1; }
    }
  }

  /** Replacing the last unit moves a distance by at most one. */
  lemma {:induction false} ReplaceLastMoves(a: Text, s: Text, c: CodeUnit, d: CodeUnit)
    ensures Distance(a, s + [d]) <= Distance(a, s + [c]) + 1
    decreases |a|
  {
    assert Init(s + [c]) == s && Init(s + [d]) == s;
    if a != [] { ReplaceLastMoves(Init(a), s, c, d); }
  }

  /** One edit anywhere moves the distance from any text by at most one. */
  lemma {:induction false} EditMoves(a: Text, s: Text, e: Edit)
    requires Applicable(e, s)
    ensures Distance(a, Apply(e, s)) <= Distance(a, s) + 1
    decreases |a| + |s|
  {
    var t := Apply(e, s);
    if s == [] || e.at >= |s| - (if e.Insert? then 0 else 1) {
      match e {
        case Insert(p, c) =>
          assert t == s + [c];
          AppendMoves(a, s, c);
        case Delete(p) =>
          assert t == Init(s) && s == t + [Last(s)];
          AppendMoves(a, t, Last(s));
        case Substitute(p, c) =>
          assert t == Init(s) + [c] && s == Init(s) + [Last(s)];
          ReplaceLastMoves(a, Init(s), Last(s), c);
      }
    } else {
      InnerEdit(s, e);
      EditMoves(a, Init(s), e);
      if a != [] {
        EditMoves(Init(a), s, e);
        EditMoves(Init(a), Init(s), e);
      }
    }
  }

  /** An edit away from the end leaves the last unit alone. */
  lemma InnerEdit(s: Text, e: Edit)
    requires s != [] && Applicable(e, s) && Applicable(e, Init(s))
    requires e.Insert? ==> e.at < |s|
    ensures Apply(e, s) == Apply(e, Init(s)) + [Last(s)]
    ensures Init(Apply(e, s)) == Apply(e, Init(s)) && Last(Apply(e, s)) == Last(s)
  {
    assert s == Init(s) + [Last(s)];
    assert Apply(e, s) == Apply(e, Init(s)) + [Last(s)];
  }

  /** No script is shorter than the table's value. */
  lemma {:induction false} ScriptsAreNoShorter(a: Text, script: seq<Edit>, s: Text, t: Text)
    requires Turns(script, s, t)
    ensures Distance(a, t) <= Distance(a, s) + |script|
    decreases |script|
  {
    if script != [] {
      EditMoves(a, s, script[0]);
      ScriptsAreNoShorter(a, script[1..], Apply(script[0], s), t);
    }
  }

  lemma {:induction false} TurnsConcat(x: seq<Edit>, y: seq<Edit>, s: Text, t: Text, u: Text)
    requires Turns(x, s, t) && Turns(y, t, u)
    ensures Turns(x + y, s, u)
    decreases |x|
  {
    if x == [] {
      assert x + y == y;
    } else {
      TurnsConcat(x[1..], y, Apply(x[0], s), t, u);
      assert (x + y)[1..] == x[1..] + y;
    }
  }

  /** A script for a prefix still works when one more unit follows. */
  lemma {:induction false} TurnsBefore(x: seq<Edit>, s: Text, t: Text, c: CodeUnit)
    requires Turns(x, s, t)
    ensures Turns(x, s + [c], t + [c])
    decreases |x|
  {
    if x != [] {
      assert Init(s + [c]) == s;
      InnerEdit(s + [c], x[0]);
      TurnsBefore(x[1..], Apply(x[0], s), t, c);
    }
  }

  lemma ThenAppend(x: seq<Edit>, a: Text, b: Text) returns (script: seq<Edit>)
    requires b != [] && Turns(x, a, Init(b))
    ensures Turns(script, a, b) && |script| == |x| + 1
  {
    var add := Insert(|b| - 1, Last(b));
    assert Apply(add, Init(b)) == b;
    assert Turns([add], Init(b), b);
    TurnsConcat(x, [add], a, Init(b), b);
    script := x + [add];
  }

  lemma FirstDropLast(x: seq<Edit>, a: Text, b: Text) returns (script: seq<Edit>)
    requires a != [] && Turns(x, Init(a), b)
    ensures Turns(script, a, b) && |script| == |x| + 1
  {
    var drop := Delete(|a| - 1);
    assert Apply(drop, a) == Init(a);
    script := [drop] + x;
    assert script[1..] == x;
  }

  lemma FirstAlignLast(x: seq<Edit>, a: Text, b: Text) returns (script: seq<Edit>)
    requires a != [] && b != [] && Turns(x, Init(a), Init(b))
    ensures Turns(script, a, b) && |script| == |x| + (if Last(a) == Last(b) then 0 else 1)
  {
    TurnsBefore(x, Init(a), Init(b), Last(b));
    assert b == Init(b) + [Last(b)];
    if Last(a) == Last(b) {
      assert a == Init(a) + [Last(b)];
      script := x;
    } else {
      var swap := Substitute(|a| - 1, Last(b));
      assert Apply(swap, a) == Init(a) + [Last(b)];
      script := [swap] + x;
      assert script[1..] == x;
    }
  }

  /** A script exactly as long as the table's value. */
  lemma {:induction false} ScriptOfDistance(a: Text, b: Text) returns (script: seq<Edit>)
    ensures Turns(script, a, b) && |script| == Distance(a, b)
    decreases |a| + |b|
  {
    if a == [] && b == [] {
      script := [];
    } else if a == [] || (b != [] && Distance(a, b) == Distance(a, Init(b)) + 1) {
      var rest := ScriptOfDistance(a, Init(b));
      script := ThenAppend(rest, a, b);
    } else if b == [] || Distance(a, b) == Distance(Init(a), b) + 1 {
      var rest := ScriptOfDistance(Init(a), b);
      script := FirstDropLast(rest, a, b);
    } else {
      var rest := ScriptOfDistance(Init(a), Init(b));
      script := FirstAlignLast(rest, a, b);
    }
  }

  /** The recurrence is the shortest-script length. */
  lemma DistanceIsCheapest(a: Text, b: Text)
    ensures Cheapest(a, b, Distance(a, b))
  {
    var script := ScriptOfDistance(a, b);
    forall other | Turns(other, a, b) ensures Distance(a, b) <= |other| {
      DistanceToSelf(a);
      ScriptsAreNoShorter(a, other, a, b);
    }
  }

  // ----- metric laws -----

  lemma {:induction false} ZeroOnlyForEqual(a: Text, b: Text)
    ensures Distance(a, b) == 0 <==> a == b
  {
    DistanceToSelf(a);
    if Distance(a, b) == 0 {
      var script := ScriptOfDistance(a, b);
      assert script == [];
    }
  }

  lemma {:induction false} Symmetric(a: Text, b: Text)
    ensures Distance(a, b) == Distance(b, a)
    decreases |a| + |b|
  {
    if a != [] && b != [] {
      Symmetric(Init(a), b);
      Symmetric(a, Init(b));
      Symmetric(Init(a), Init(b));
    }
  }

  lemma {:induction false} Triangle(a: Text, b: Text, c: Text)
    ensures Distance(a, c) <= Distance(a, b) + Distance(b, c)
  {
    var script := ScriptOfDistance(b, c);
    ScriptsAreNoShorter(a, script, b, c);
  }

  lemma {:induction false} AtMostLonger(a: Text, b: Text)
    ensures Distance(a, b) <= if |a| < |b| then |b| else |a|
    decreases |a| + |b|
  {
    if a != [] && b != [] { AtMostLonger(Init(a), Init(b)); }
  }

  // ----- the one-row loop -----

  /** The table's cell (i, j): the distance between the first i and the first j units. */
  ghost function Cell(a: Text, b: Text, i: nat, j: nat): nat
    requires i <= |a| && j <= |b|
  {
    Distance(a[..i], b[..j])
  }

  lemma {:induction false} CellValues(a: Text, b: Text, i: nat, j: nat)
    requires i <= |a| && j <= |b|
    ensures i == 0 ==> Cell(a, b, i, j) == j
    ensures j == 0 ==> Cell(a, b, i, j) == i
    ensures i > 0 && j > 0 ==>
              Cell(a, b, i, j) == Min(Min(Cell(a, b, i - 1, j) + 1, Cell(a, b, i, j - 1) + 1),
                                      Cell(a, b, i - 1, j - 1) + (if a[i - 1] == b[j - 1] then 0 else 1))
    ensures i == |a| && j == |b| ==> Cell(a, b, i, j) == Distance(a, b)
  {
    if i > 0 && j > 0 {
      assert Init(a[..i]) == a[..i - 1] && Init(b[..j]) == b[..j - 1];
    }
    if i == |a| && j == |b| {
      assert a[..i] == a && b[..j] == b;
    }
  }

  /** `levenshtein`: two nested loops over one row that is overwritten in place. */
  method Levenshtein(a: Text, b: Text) returns (d: nat)
    ensures Cheapest(a, b, d)
    ensures d == Distance(a, b)
  {
    DistanceIsCheapest(a, b);
    if a == b {
      DistanceToSelf(a);
      return 0;
    }
    if |a| == 0 { return |b|; }
    if |b| == 0 { return |a|; }
    d := FillRow(a, b);
  }

  method FillRow(a: Text, b: Text) returns (d: nat)
    requires a != [] && b != []
    ensures d == Distance(a, b)
  {
    var prev := new nat[|b| + 1](k => k);
    forall k | 0 <= k <= |b| ensures Cell(a, b, 0, k) == k { CellValues(a, b, 0, k); }
    var i := 1;
    while i <= |a|
      invariant 1 <= i <= |a| + 1
      invariant forall k :: 0 <= k <= |b| ==> prev[k] == Cell(a, b, i - 1, k)
    {
      var prevDiag := prev[0];
      prev[0] := i;
      CellValues(a, b, i, 0);
      var j := 1;
      while j <= |b|
        invariant 1 <= j <= |b| + 1
        invariant prevDiag == Cell(a, b, i - 1, j - 1)
        invariant forall k :: 0 <= k < j ==> prev[k] == Cell(a, b, i, k)
        invariant forall k :: j <= k <= |b| ==> prev[k] == Cell(a, b, i - 1, k)
      {
        CellValues(a, b, i, j);
        var tmp := prev[j];
        prev[j] := Min(Min(prev[j] + 1, prev[j - 1] + 1), prevDiag + (if a[i - 1] == b[j - 1] then 0 else 1));
        prevDiag := tmp;
        j := j + 1;
      }
      i := i + 1;
    }
    CellValues(a, b, |a|, |b|);
    d := prev[|b|];
  }

  // ----- similarity -----

  const SPACE: CodeUnit := 32

  /** `text.split(" ").filter(Boolean)` as a set: the maximal runs without a space. */
  function TokensFrom(s: Text, token: Text): set<Text>
    decreases |s|
  {
    var done := if token == [] then {} else {token};
    if s == [] then done
    else if s[0] == SPACE then done + TokensFrom(s[1..], [])
    else TokensFrom(s[1..], token + [s[0]])
  }

  function Tokens(s: Text): set<Text> { TokensFrom(s, []) }

  /** The stretch from i to j is a word: not empty, without a space, and bounded by spaces or the ends. */
  predicate WordAt(s: Text, i: nat, j: nat) {
    && i < j <= |s|
    && (forall k :: i <= k < j ==> s[k] != SPACE)
    && (i == 0 || s[i - 1] == SPACE)
    && (j == |s| || s[j] == SPACE)
  }

  ghost predicate IsWord(s: Text, t: Text) { exists i: nat, j: nat :: WordAt(s, i, j) && s[i..j] == t }

  lemma WordsOfWord(u: Text, t: Text)
    requires SPACE !in u
    ensures IsWord(u, t) <==> u != [] && t == u
  {
    if u != [] { assert WordAt(u, 0, |u|) && u[0..|u|] == u; }
    if i: nat, j: nat :| WordAt(u, i, j) && u[i..j] == t {
      assert i == 0 && j == |u|;
      assert u[0..|u|] == u;
    }
  }

  lemma WordBehind(u: Text, v: Text, i: nat, j: nat)
    requires i <= j <= |v|
    ensures WordAt(u + [SPACE] + v, |u| + 1 + i, |u| + 1 + j) <==> WordAt(v, i, j)
    ensures (u + [SPACE] + v)[|u| + 1 + i..|u| + 1 + j] == v[i..j]
  {
    var s := u + [SPACE] + v;
    assert forall k :: 0 <= k < |v| ==> s[|u| + 1 + k] == v[k];
    assert s[|u|] == SPACE;
  }

  /** Words on both sides of a space. */
  lemma WordsAtSpace(u: Text, v: Text, t: Text)
    requires SPACE !in u
    ensures IsWord(u + [SPACE] + v, t) <==> (u != [] && t == u) || IsWord(v, t)
  {
    var s := u + [SPACE] + v;
    assert forall k :: 0 <= k < |u| ==> s[k] == u[k];
    assert s[|u|] == SPACE;
    if u != [] { assert WordAt(s, 0, |u|) && s[0..|u|] == u; }
    if i: nat, j: nat :| WordAt(v, i, j) && v[i..j] == t {
      WordBehind(u, v, i, j);
    }
    if i: nat, j: nat :| WordAt(s, i, j) && s[i..j] == t {
      if i <= |u| {
        assert i == 0 && j == |u|;
        assert s[0..|u|] == u;
      } else {
        WordBehind(u, v, i - |u| - 1, j - |u| - 1);
      }
    }
  }

  lemma {:induction false} TokensFromAre(s: Text, token: Text, t: Text)
    requires SPACE !in token
    ensures t in TokensFrom(s, token) <==> IsWord(token + s, t)
    decreases |s|
  {
    if s == [] {
      assert token + s == token;
      WordsOfWord(token, t);
    } else if s[0] == SPACE {
      assert token + s == token + [SPACE] + s[1..];
      assert [] + s[1..] == s[1..];
      WordsAtSpace(token, s[1..], t);
      TokensFromAre(s[1..], [], t);
    } else {
      assert token + [s[0]] + s[1..] == token + s;
      TokensFromAre(s[1..], token + [s[0]], t);
    }
  }

  /** The tokens of a text are exactly its words. */
  lemma TokensAreWords(s: Text, t: Text)
    ensures t in Tokens(s) <==> IsWord(s, t)
  {
    assert [] + s == s;
    TokensFromAre(s, [], t);
  }

  function Ratio(part: nat, whole: nat): real {
    if whole == 0 then 0.0 else part as real / whole as real
  }

  function Max(a: real, b: real): real { if a < b then b else a }

  function Longer(a: Text, b: Text): nat { if |a| < |b| then |b| else |a| }

  /** The blend the code computes, over exact numbers. */
  function Similarity(a: Text, b: Text): real {
    if a == [] || b == [] then 0.0
    else if a == b then 1.0
    else
      var ta, tb := Tokens(a), Tokens(b);
      var inter := |ta * tb|;
      var short, long := if |ta| <= |tb| then ta else tb, if |ta| <= |tb| then tb else ta;
      Max(Max(1.0 - Ratio(Distance(a, b), Longer(a, b)), Ratio(inter, |ta + tb|)),
          if short != {} && short <= long then 0.85 else 0.0)
  }

  /** A set of all the words of a text. */
  ghost predicate AllWords(s: Text, words: set<Text>) { forall t :: t in words <==> IsWord(s, t) }

  predicate Greatest(x: real, p: real, q: real, r: real) { x >= p && x >= q && x >= r && (x == p || x == q || x == r) }

  /** How little of the longer text a script of length d changes. */
  function ScriptPart(a: Text, b: Text, d: nat): real
    requires a != [] || b != []
  {
    1.0 - d as real / (if |a| < |b| then |b| else |a|) as real
  }

  /** How many of all words are shared. */
  function SharedPart(x: set<Text>, y: set<Text>): real { if x + y == {} then 0.0 else |x * y| as real / |x + y| as real }

  /** Every word of the text with fewer words, which has some, is one of the other's. */
  predicate Contained(x: set<Text>, y: set<Text>) {
    (|x| <= |y| && x != {} && x <= y) || (|y| < |x| && y != {} && y <= x)
  }

  /** A score is the greatest of three parts, for the length of the cheapest script and the words of both texts. */
  ghost predicate ScoreOf(a: Text, b: Text, score: real)
    requires a != [] || b != []
  {
    forall d: nat, x, y :: Cheapest(a, b, d) && AllWords(a, x) && AllWords(b, y) ==>
      Greatest(score, ScriptPart(a, b, d), SharedPart(x, y), if Contained(x, y) then 0.85 else 0.0)
  }

  lemma CheapestIsDistance(a: Text, b: Text, d: nat)
    requires Cheapest(a, b, d)
    ensures d == Distance(a, b)
  {
    DistanceIsCheapest(a, b);
  }

  lemma AllWordsAreTokens(s: Text, words: set<Text>)
    requires AllWords(s, words)
    ensures words == Tokens(s)
  {
    forall t ensures t in words <==> t in Tokens(s) { TokensAreWords(s, t); }
  }

  lemma PartsOfScore(a: Text, b: Text)
    requires a != [] && b != [] && a != b
    ensures Greatest(Similarity(a, b), ScriptPart(a, b, Distance(a, b)), SharedPart(Tokens(a), Tokens(b)),
                     if Contained(Tokens(a), Tokens(b)) then 0.85 else 0.0)
  {
  }

  lemma ScoreInParts(a: Text, b: Text)
    requires a != [] && b != [] && a != b
    ensures ScoreOf(a, b, Similarity(a, b))
  {
    PartsOfScore(a, b);
    forall d: nat, x, y | Cheapest(a, b, d) && AllWords(a, x) && AllWords(b, y)
      ensures d == Distance(a, b) && x == Tokens(a) && y == Tokens(b)
    {
      CheapestIsDistance(a, b, d);
      AllWordsAreTokens(a, x);
      AllWordsAreTokens(b, y);
    }
  }

  lemma RatioBounds(part: nat, whole: nat)
    requires part <= whole
    ensures 0.0 <= Ratio(part, whole) <= 1.0
    ensures Ratio(part, whole) == 1.0 <==> part == whole != 0
    ensures Ratio(part, whole) == 0.0 <==> part == 0
  {
    if whole != 0 {
      var p, w := part as real, whole as real;
      assert p / w * w == p;
    }
  }

  lemma SubsetSize<T>(s: set<T>, t: set<T>)
    requires s <= t
    ensures |s| <= |t|
    ensures |s| == |t| ==> s == t
  {
    assert t == s + (t - s);
    assert |t| == |s| + |t - s|;
  }

  /** Similarity stays between 0 and 1, and reaches 1 exactly for equal texts or equal token sets. */
  lemma SimilarityRange(a: Text, b: Text)
    ensures 0.0 <= Similarity(a, b) <= 1.0
    ensures Similarity(a, b) == 1.0 <==> a != [] && b != [] && (a == b || Tokens(a) == Tokens(b) != {})
  {
    if a != [] && b != [] && a != b {
      var ta, tb := Tokens(a), Tokens(b);
      AtMostLonger(a, b);
      ZeroOnlyForEqual(a, b);
      SubsetSize(ta * tb, ta + tb);
      RatioBounds(Distance(a, b), Longer(a, b));
      RatioBounds(|ta * tb|, |ta + tb|);
      if ta * tb == ta + tb { assert ta == tb; }
    }
  }

  lemma SimilaritySymmetric(a: Text, b: Text)
    ensures Similarity(a, b) == Similarity(b, a)
  {
    Symmetric(a, b);
    var ta, tb := Tokens(a), Tokens(b);
    assert ta * tb == tb * ta && ta + tb == tb + ta;
    if |ta| == |tb| {
      if ta <= tb { SubsetSize(ta, tb); }
      if tb <= ta { SubsetSize(tb, ta); }
    }
  }

  lemma SharedGrows(done: set<Text>, tb: set<Text>, t: Text)
    requires t !in done
    ensures |(done + {t}) * tb| == |done * tb| + if t in tb then 1 else 0
  {
    assert (done + {t}) * tb == if t in tb then done * tb + {t} else done * tb;
  }

  lemma UnionSize(ta: set<Text>, tb: set<Text>)
    ensures |ta + tb| == |ta| + |tb| - |ta * tb|
  {
    assert ta + tb == ta + (tb - ta) && tb == (tb - ta) + ta * tb;
  }

  /** The counting pass: how many tokens of ta are in tb. */
  method CountShared(ta: set<Text>, tb: set<Text>) returns (inter: nat)
    ensures inter == |ta * tb|
    ensures |ta + tb| == |ta| + |tb| - inter
  {
    inter := 0;
    var todo := ta;
    ghost var done: set<Text> := {};
    while todo != {}
      invariant todo !! done && todo + done == ta && inter == |done * tb|
      decreases |todo|
    {
      var t :| t in todo;
      SharedGrows(done, tb, t);
      if t in tb { inter := inter + 1; }
      todo, done := todo - {t}, done + {t};
    }
    assert done == ta;
    UnionSize(ta, tb);
  }

  /** The containment pass: every token of the shorter set is in the longer one. */
  method AllContained(short: set<Text>, long: set<Text>) returns (all: bool)
    ensures all <==> short != {} && short <= long
  {
    all := |short| > 0;
    var todo := short;
    ghost var done: set<Text> := {};
    while todo != {}
      invariant todo + done == short
      invariant all <==> short != {} && done <= long
      decreases |todo|
    {
      var t :| t in todo;
      if t !in long { all := false; }
      todo, done := todo - {t}, done + {t};
    }
  }

  /** `similarity`, with its two passes over the token sets. */
  method ComputeSimilarity(a: Text, b: Text) returns (score: real)
    ensures a == [] || b == [] ==> score == 0.0
    ensures a != [] && a == b ==> score == 1.0
    ensures a != [] && b != [] && a != b ==> ScoreOf(a, b, score)
    ensures score == Similarity(a, b)
  {
    if a == [] || b == [] { return 0.0; }
    if a == b { return 1.0; }
    ScoreInParts(a, b);
    var lev := Levenshtein(a, b);
    var levSim := 1.0 - Ratio(lev, Longer(a, b));
    var ta, tb := Tokens(a), Tokens(b);
    var inter := CountShared(ta, tb);
    var jaccard := Ratio(inter, |ta| + |tb| - inter);
    var short, long := if |ta| <= |tb| then ta else tb, if |ta| <= |tb| then tb else ta;
    var allContained := AllContained(short, long);
    score := Max(Max(levSim, jaccard), if allContained then 0.85 else 0.0);
  }

  // ----- the fuzzy choice -----

  const FUZZY_THRESHOLD := 0.74

  datatype Candidate = Candidate(norm: Text, amenity: Text, category: Text)
  datatype Choice = NoMatch | Match(index: nat, score: real)

  /** The fuzzy choice loop: the first of the best candidates at or above the threshold. */
  method FuzzyChoice(norm: Text, candidates: seq<Candidate>) returns (best: Choice)
    ensures best.NoMatch? <==> forall k :: 0 <= k < |candidates| ==> Similarity(norm, candidates[k].norm) < 0.74
    ensures best.Match? ==>
              && best.index < |candidates|
              && best.score == Similarity(norm, candidates[best.index].norm) >= 0.74
              && (forall k :: 0 <= k < |candidates| ==> Similarity(norm, candidates[k].norm) <= best.score)
              && (forall k :: 0 <= k < best.index ==> Similarity(norm, candidates[k].norm) < best.score)
  {
    best := NoMatch;
    for i := 0 to |candidates|
      invariant best.NoMatch? <==> forall k :: 0 <= k < i ==> Similarity(norm, candidates[k].norm) < FUZZY_THRESHOLD
      invariant best.Match? ==>
                  && best.index < i
                  && best.score == Similarity(norm, candidates[best.index].norm) >= FUZZY_THRESHOLD
                  && (forall k :: 0 <= k < i ==> Similarity(norm, candidates[k].norm) <= best.score)
                  && (forall k :: 0 <= k < best.index ==> Similarity(norm, candidates[k].norm) < best.score)
    {
      var score := ComputeSimilarity(norm, candidates[i].norm);
      if score >= FUZZY_THRESHOLD && (best.NoMatch? || score > best.score) {
        best := Match(i, score);
      }
    }
  }
}
