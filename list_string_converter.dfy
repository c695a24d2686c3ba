/** The JPA converter that stores a `List<String>` in one text column
    (eco-wardrobe-backend/.../config/ListStringConverter.java): elements are joined with
    the separator "||" on the way in, and the column is split on the literal "||" with the
    rules of Java's `String.split` on the way out. Java's `null` is `None`. */
module ListStringConverter {
  import opened Optional

  const Sep: string := "||"

  // ---------------------------------------------------------------------------
  // Writing: `convertToDatabaseColumn`.

  /** `Collectors.joining(SEP)` */
  function Join(xs: seq<string>): (s: string)
    ensures |xs| == 1 ==> s == xs[0]
  {
    if |xs| == 0 then "" else if |xs| == 1 then xs[0] else xs[0] + Sep + Join(xs[1..])
  }

  /** `s == null ? "" : s` on each element. */
  function NullsToEmpty(xs: seq<Option<string>>): (r: seq<string>)
    ensures |r| == |xs|
    ensures forall i :: 0 <= i < |xs| ==> r[i] == (if xs[i].None? then "" else xs[i].value)
  {
    if |xs| == 0 then [] else [if xs[0].None? then "" else xs[0].value] + NullsToEmpty(xs[1..])
  }

  /** `convertToDatabaseColumn(attribute)`: a null or empty list is stored as a null column. */
  function ToDatabaseColumn(attribute: Option<seq<Option<string>>>): (column: Option<string>)
    ensures column.None? <==> attribute.None? || |attribute.value| == 0
  {
    if attribute.None? || |attribute.value| == 0 then None
    else Some(Join(NullsToEmpty(attribute.value)))
  }

  // ---------------------------------------------------------------------------
  // Reading: `convertToEntityAttribute`.

  /** The position of the first "||" in `s`, or `|s|` when there is none. */
  function SepIndex(s: string): (i: nat)
    ensures i <= |s|
    ensures i < |s| ==> i + 2 <= |s| && s[i] == '|' && s[i + 1] == '|'
    ensures forall j :: 0 <= j < i && j + 1 < |s| ==> !(s[j] == '|' && s[j + 1] == '|')
  {
    if |s| < 2 then |s|
    else if s[0] == '|' && s[1] == '|' then 0
    else 1 + SepIndex(s[1..])
  }

  /** The pieces between the separators, matched left to right without overlap; a string
      without a separator is one piece. */
  function Pieces(s: string): (ps: seq<string>)
    ensures |ps| >= 1
    decreases |s|
  {
    var i := SepIndex(s);
    if i == |s| then [s] else [s[..i]] + Pieces(s[i + 2..])
  }

  /** Removes the empty strings at the end. */
  function DropTrailingEmpty(ps: seq<string>): (r: seq<string>)
    ensures |r| <= |ps| && r == ps[..|r|]
    ensures |r| > 0 ==> r[|r| - 1] != ""
    ensures forall j :: |r| <= j < |ps| ==> ps[j] == ""
  {
    if |ps| == 0 then []
    else if ps[|ps| - 1] == "" then DropTrailingEmpty(ps[..|ps| - 1])
    else ps
  }

  /** `s.split(Pattern.quote("||"))`: with no separator the result is `[s]`; otherwise the
      pieces, with trailing empty strings removed. */
  function JavaSplit(s: string): seq<string>
  {
    var ps := Pieces(s);
    if |ps| == 1 then ps else DropTrailingEmpty(ps)
  }

  /** `s.isEmpty() ? null : s` on each piece. */
  function EmptyToNull(ps: seq<string>): (r: seq<Option<string>>)
    ensures |r| == |ps|
    ensures forall i :: 0 <= i < |ps| ==> r[i] == (if ps[i] == "" then None else Some(ps[i]))
  {
    if |ps| == 0 then [] else [if ps[0] == "" then None else Some(ps[0])] + EmptyToNull(ps[1..])
  }

  /** `convertToEntityAttribute(dbData)`: a null or empty column reads as the empty list. */
  function ToEntityAttribute(dbData: Option<string>): (list: seq<Option<string>>)
    ensures dbData.None? || dbData.value == "" ==> list == []
  {
    if dbData.None? || dbData.value == "" then []
    else EmptyToNull(JavaSplit(dbData.value))
  }

  // ---------------------------------------------------------------------------
  // Properties.

  predicate NoBar(s: string)
  {
    forall i :: 0 <= i < |s| ==> s[i] != '|'
  }

  /** The first separator of `w + "||" + r` is the one right after `w` when `w` has no bar. */
  lemma {:induction false} SepIndexAfterWord(w: string, r: string)
    requires NoBar(w)
    ensures SepIndex(w + Sep + r) == |w|
  {
    var s := w + Sep + r;
    if |w| > 0 {
      assert s[1..] == w[1..] + Sep + r;
      SepIndexAfterWord(w[1..], r);
    }
  }

  /** A string without a bar holds no separator. */
  lemma {:induction false} SepIndexOfWord(w: string)
    requires NoBar(w)
    ensures SepIndex(w) == |w|
  {
    if |w| >= 2 {
      SepIndexOfWord(w[1..]);
    }
  }

  /** Splitting a join of bar-free words gives the words back, empty ones included. */
  lemma {:induction false} PiecesOfJoin(xs: seq<string>)
    requires |xs| > 0
    requires forall i :: 0 <= i < |xs| ==> NoBar(xs[i])
    ensures Pieces(Join(xs)) == xs
  {
    if |xs| == 1 {
      SepIndexOfWord(xs[0]);
    } else {
      var s := Join(xs);
      var w, r := xs[0], Join(xs[1..]);
      SepIndexAfterWord(w, r);
      assert s[..|w|] == w;
      assert s[|w| + 2..] == r;
      PiecesOfJoin(xs[1..]);
      assert xs == [w] + xs[1..];
    }
  }

  /** A non-empty list of non-empty strings without '|' reads back unchanged. */
  lemma RoundTrip(xs: seq<string>)
    requires |xs| > 0
    requires forall i :: 0 <= i < |xs| ==> xs[i] != "" && NoBar(xs[i])
    ensures ToEntityAttribute(ToDatabaseColumn(Some(SomeAll(xs)))) == SomeAll(xs)
  {
    NullsToEmptySomeAll(xs);
    PiecesOfJoin(xs);
    JavaSplitOfJoin(xs);
    EmptyToNullOfWords(xs);
  }

  lemma NullsToEmptySomeAll(xs: seq<string>)
    ensures NullsToEmpty(SomeAll(xs)) == xs
  {
  }

  lemma EmptyToNullOfWords(xs: seq<string>)
    requires forall i :: 0 <= i < |xs| ==> xs[i] != ""
    ensures EmptyToNull(xs) == SomeAll(xs)
  {
  }

  lemma JavaSplitOfJoin(xs: seq<string>)
    requires |xs| > 0 && xs[|xs| - 1] != ""
    requires Pieces(Join(xs)) == xs
    ensures Join(xs) != "" ==> JavaSplit(Join(xs)) == xs
  {
  }

  /** Every element present. */
  function SomeAll(xs: seq<string>): (r: seq<Option<string>>)
    ensures |r| == |xs| && forall i :: 0 <= i < |xs| ==> r[i] == Some(xs[i])
  {
    if |xs| == 0 then [] else [Some(xs[0])] + SomeAll(xs[1..])
  }

  /** A trailing null is lost: `[a, null]` is stored as "a||" and read back as `[a]`. */
  lemma TrailingNullLost()
    ensures ToDatabaseColumn(Some([Some("a"), None])) == Some("a||")
    ensures ToEntityAttribute(Some("a||")) == [Some("a")]
  {
    assert NullsToEmpty([Some("a"), None]) == ["a", ""];
    assert ["a", ""][1..] == [""];
    assert Join(["a", ""]) == "a" + Sep + "";
    assert "a" + Sep + "" == "a||";
    var s := "a||";
    assert SepIndex(s) == 1 by {
      assert s[0] != '|' && s[1..] == "||";
    }
    assert s[..1] == "a" && s[3..] == "";
    assert Pieces(s) == ["a", ""];
    assert DropTrailingEmpty(["a", ""]) == ["a"] by {
      assert ["a", ""][..1] == ["a"];
    }
  }

  /** A list holding only null is stored as the empty string, which reads back as the
      empty list. */
  lemma LoneNullLost()
    ensures ToDatabaseColumn(Some([None])) == Some("")
    ensures ToEntityAttribute(Some("")) == []
  {
    assert NullsToEmpty([None]) == [""];
  }

  /** A leading null survives, because `split` keeps leading empty strings. */
  lemma LeadingNullKept()
    ensures ToDatabaseColumn(Some([None, Some("a")])) == Some("||a")
    ensures ToEntityAttribute(Some("||a")) == [None, Some("a")]
  {
    assert NullsToEmpty([None, Some("a")]) == ["", "a"];
    assert ["", "a"][1..] == ["a"];
    assert Join(["", "a"]) == "" + Sep + "a";
    assert "" + Sep + "a" == "||a";
    var s := "||a";
    assert SepIndex(s) == 0;
    assert s[..0] == "" && s[2..] == "a";
    assert Pieces("a") == ["a"];
    assert Pieces(s) == ["", "a"];
  }

  /** An element containing the separator comes back as several elements. */
  lemma SeparatorInElementSplits()
    ensures ToDatabaseColumn(Some([Some("a||b")])) == Some("a||b")
    ensures ToEntityAttribute(Some("a||b")) == [Some("a"), Some("b")]
  {
    var s := "a||b";
    assert SepIndex(s) == 1 by {
      assert s[0] != '|' && s[1..] == "||b";
    }
    assert s[..1] == "a" && s[3..] == "b";
    assert Pieces("b") == ["b"];
    assert Pieces(s) == ["a", "b"];
  }
}
