/** Snake-casing of rpc and service names for generated functions. */
module SnakeCase {

  /** The Unicode case tables, of which only their ASCII part is fixed here. `lower` is the first
      character of the lower case form. */
  datatype CaseTable = CaseTable(isUpper: char -> bool, lower: char -> char)

  predicate IsAscii(s: string) { forall i :: 0 <= i < |s| ==> s[i] as int < 128 }

  predicate AsciiUpper(c: char) { 'A' <= c <= 'Z' }

  predicate AsciiLower(c: char) { 'a' <= c <= 'z' }

  function Lower(c: char): char {
    if AsciiUpper(c) then (c as int + 32) as char else c
  }

  function Upper(c: char): char {
    if AsciiLower(c) then (c as int - 32) as char else c
  }

  ghost predicate KnowsAscii(table: CaseTable) {
    && (forall c: char :: c as int < 128 ==> (table.isUpper(c) <==> AsciiUpper(c)))
    && (forall c: char :: AsciiUpper(c) ==> table.lower(c) == Lower(c))
  }

  function Snake(table: CaseTable, s: string, first: bool): string {
    if s == [] then []
    else
      (if table.isUpper(s[0]) then (if first then [] else ['_']) + [table.lower(s[0])] else [s[0]])
      + Snake(table, s[1..], false)
  }

  lemma SnakeOfNothing(table: CaseTable, src: string, done: string)
    ensures done + Snake(table, src[|src|..], src == []) == done
  {
  }

  lemma SnakeOneMore(table: CaseTable, src: string, i: nat, done: string)
    requires i < |src|
    ensures var c := src[i];
      done + Snake(table, src[i..], i == 0) ==
      (if !table.isUpper(c) then done + [c]
       else if i == 0 then done + [table.lower(c)]
       else done + ['_'] + [table.lower(c)]) + Snake(table, src[i + 1..], false)
  {
    assert src[i..][0] == src[i] && src[i..][1..] == src[i + 1..];
  }

  method IntoSnakeCase(table: CaseTable, src: string) returns (result: string)
    ensures result == Snake(table, src, true)
  {
    hide Snake;
    result := [];
    assert src[0..] == src && [] + Snake(table, src, true) == Snake(table, src, true);
    for i := 0 to |src|
      invariant result + Snake(table, src[i..], i == 0) == Snake(table, src, true)
    {
      SnakeOneMore(table, src, i, result);
      var ch := src[i];
      if table.isUpper(ch) {
        if i != 0 {
          result := result + ['_'];
        }
        result := result + [table.lower(ch)];
      } else {
        result := result + [ch];
      }
    }
    SnakeOfNothing(table, src, result);
  }

  /** Upper-cases the first character and those after an underscore, and drops the underscores. */
  function Camel(s: string, up: bool): string {
    if s == [] then []
    else if s[0] == '_' then Camel(s[1..], true)
    else [if up then Upper(s[0]) else s[0]] + Camel(s[1..], false)
  }

  lemma UpperCaseHead(table: CaseTable, s: string, first: bool)
    requires KnowsAscii(table) && s != [] && AsciiUpper(s[0])
    ensures Camel(Snake(table, s, first), first) == [s[0]] + Camel(Snake(table, s[1..], false), false)
  {
    var rest := Snake(table, s[1..], false);
    var low := [table.lower(s[0])] + rest;
    assert low[1..] == rest;
    assert Camel(low, true) == [s[0]] + Camel(rest, false);
    if first {
      assert Snake(table, s, first) == low;
    } else {
      assert Snake(table, s, first) == ['_'] + low;
      assert (['_'] + low)[1..] == low;
    }
  }

  lemma OtherHead(table: CaseTable, s: string, first: bool)
    requires KnowsAscii(table) && s != [] && s[0] as int < 128 && s[0] != '_'
    requires !AsciiUpper(s[0]) && (first ==> !AsciiLower(s[0]))
    ensures Camel(Snake(table, s, first), first) == [s[0]] + Camel(Snake(table, s[1..], false), false)
  {
    var rest := Snake(table, s[1..], false);
    assert Snake(table, s, first) == [s[0]] + rest;
    assert ([s[0]] + rest)[1..] == rest;
  }

  lemma {:induction false} CamelUndoesSnake(table: CaseTable, s: string, first: bool)
    requires KnowsAscii(table) && IsAscii(s) && '_' !in s
    requires first && s != [] ==> !AsciiLower(s[0])
    ensures Camel(Snake(table, s, first), first) == s
  {
    if s != [] {
      hide Camel, Snake;
      assert s[0] in s;
      CamelUndoesSnake(table, s[1..], false);
      if AsciiUpper(s[0]) { UpperCaseHead(table, s, first); } else { OtherHead(table, s, first); }
      assert s == [s[0]] + s[1..];
    }
  }

  lemma {:induction false} CamelHasNoUnderscore(s: string, up: bool)
    ensures '_' !in Camel(s, up)
  {
    if s != [] {
      CamelHasNoUnderscore(s[1..], true);
      CamelHasNoUnderscore(s[1..], false);
    }
  }

  lemma {:induction false} CamelStartsUpper(s: string)
    ensures Camel(s, true) != [] ==> !AsciiLower(Camel(s, true)[0])
  {
    if s != [] && s[0] == '_' { CamelStartsUpper(s[1..]); }
  }

  /** An ASCII name is recovered from its generated name exactly when it has no underscore and does
      not start with a lower case letter. */
  lemma NameIsRecoveredExactly(table: CaseTable, s: string)
    requires KnowsAscii(table) && IsAscii(s)
    ensures Camel(Snake(table, s, true), true) == s <==> ('_' !in s && (s != [] ==> !AsciiLower(s[0])))
  {
    if '_' !in s && (s != [] ==> !AsciiLower(s[0])) {
      CamelUndoesSnake(table, s, true);
    } else {
      CamelHasNoUnderscore(Snake(table, s, true), true);
      CamelStartsUpper(Snake(table, s, true));
    }
  }

  // ---- which names collide ----

  /** An underscore and a lower case letter: what snake-casing makes of an upper case letter. */
  predicate HidesUpper(s: string) {
    |s| >= 2 && s[0] == '_' && AsciiLower(s[1])
  }

  /** The first letter in upper case, and after it every underscore with a lower case letter written
      as that letter in upper case. */
  function Folded(s: string, first: bool): string {
    if s == [] then []
    else if first then [Upper(s[0])] + Folded(s[1..], false)
    else if HidesUpper(s) then [Upper(s[1])] + Folded(s[2..], false)
    else [s[0]] + Folded(s[1..], false)
  }

  lemma SnakeOfHead(table: CaseTable, c: char, rest: string, first: bool)
    requires KnowsAscii(table) && c as int < 128
    ensures Snake(table, [c] + rest, first) ==
      (if AsciiUpper(c) && !first then ['_', Lower(c)] else [Lower(c)]) + Snake(table, rest, false)
  {
    assert ([c] + rest)[1..] == rest && ([c] + rest)[0] == c;
    assert ['_'] + [Lower(c)] == ['_', Lower(c)];
  }

  lemma FoldedHiddenUpper(c: char, rest: string)
    requires AsciiLower(c)
    ensures Folded(['_', c] + rest, false) == [Upper(c)] + Folded(rest, false)
  {
    assert (['_', c] + rest)[2..] == rest;
  }

  lemma FoldedHead(c: char, rest: string, first: bool)
    requires first || !HidesUpper([c] + rest)
    ensures Folded([c] + rest, first) == [if first then Upper(c) else c] + Folded(rest, false)
  {
    assert ([c] + rest)[1..] == rest && ([c] + rest)[0] == c;
  }

  lemma SplitHidden(s: string)
    requires HidesUpper(s)
    ensures s == ['_'] + ([s[1]] + s[2..]) && s == ['_', s[1]] + s[2..]
  {
  }

  lemma {:induction false} SnakeOfFoldedTail(table: CaseTable, s: string)
    requires KnowsAscii(table) && IsAscii(s)
    ensures Snake(table, Folded(s, false), false) == Snake(table, s, false)
    decreases |s|
  {
    if s != [] {
      hide Snake, Folded;
      if HidesUpper(s) {
        var rest := s[2..];
        SplitHidden(s);
        SnakeOfFoldedTail(table, rest);
        FoldedHiddenUpper(s[1], rest);
        SnakeOfHead(table, Upper(s[1]), Folded(rest, false), false);
        SnakeOfHead(table, s[1], rest, false);
        SnakeOfHead(table, '_', [s[1]] + rest, false);
        assert ['_'] + ([s[1]] + Snake(table, rest, false)) == ['_', s[1]] + Snake(table, rest, false);
      } else {
        assert s == [s[0]] + s[1..];
        SnakeOfFoldedTail(table, s[1..]);
        FoldedHead(s[0], s[1..], false);
        SnakeOfHead(table, s[0], Folded(s[1..], false), false);
        SnakeOfHead(table, s[0], s[1..], false);
      }
    } else {
      assert Folded(s, false) == s;
    }
  }

  lemma SnakeOfFolded(table: CaseTable, s: string)
    requires KnowsAscii(table) && IsAscii(s)
    ensures Snake(table, Folded(s, true), true) == Snake(table, s, true)
  {
    if s != [] {
      hide Snake, Folded;
      assert s == [s[0]] + s[1..];
      SnakeOfFoldedTail(table, s[1..]);
      FoldedHead(s[0], s[1..], true);
      SnakeOfHead(table, Upper(s[0]), Folded(s[1..], false), true);
      SnakeOfHead(table, s[0], s[1..], true);
    } else {
      assert Folded(s, true) == s;
    }
  }

  lemma SnakeHidesNoMore(table: CaseTable, c: char, rest: string)
    requires KnowsAscii(table) && IsAscii(rest) && !HidesUpper([c] + rest)
    ensures !HidesUpper([c] + Snake(table, rest, false))
  {
    if rest != [] {
      hide Snake;
      assert rest == [rest[0]] + rest[1..];
      SnakeOfHead(table, rest[0], rest[1..], false);
    } else {
      assert Snake(table, rest, false) == [];
    }
  }

  lemma FoldedOfHiddenHead(table: CaseTable, c: char, rest: string)
    requires KnowsAscii(table) && AsciiLower(c)
    requires Folded(Snake(table, rest, false), false) == Folded(rest, false)
    ensures Folded(Snake(table, ['_', c] + rest, false), false) == Folded(['_', c] + rest, false)
  {
    hide Snake, Folded;
    var tail := Snake(table, rest, false);
    assert ['_', c] + rest == ['_'] + ([c] + rest) && ['_', c] + tail == ['_'] + ([c] + tail);
    SnakeOfHead(table, c, rest, false);
    SnakeOfHead(table, '_', [c] + rest, false);
    FoldedHiddenUpper(c, tail);
    FoldedHiddenUpper(c, rest);
  }

  lemma FoldedOfOtherHead(table: CaseTable, c: char, rest: string)
    requires KnowsAscii(table) && c as int < 128 && IsAscii(rest) && !HidesUpper([c] + rest)
    requires Folded(Snake(table, rest, false), false) == Folded(rest, false)
    ensures Folded(Snake(table, [c] + rest, false), false) == Folded([c] + rest, false)
  {
    hide Snake, Folded;
    var tail := Snake(table, rest, false);
    SnakeOfHead(table, c, rest, false);
    FoldedHead(c, rest, false);
    if AsciiUpper(c) {
      FoldedHiddenUpper(Lower(c), tail);
    } else {
      SnakeHidesNoMore(table, c, rest);
      FoldedHead(c, tail, false);
    }
  }

  lemma {:induction false} FoldedOfSnakeTail(table: CaseTable, s: string)
    requires KnowsAscii(table) && IsAscii(s)
    ensures Folded(Snake(table, s, false), false) == Folded(s, false)
    decreases |s|
  {
    if s == [] {
      assert Snake(table, s, false) == s;
    } else if HidesUpper(s) {
      hide Snake, Folded;
      SplitHidden(s);
      FoldedOfSnakeTail(table, s[2..]);
      FoldedOfHiddenHead(table, s[1], s[2..]);
    } else {
      hide Snake, Folded;
      assert s == [s[0]] + s[1..];
      FoldedOfSnakeTail(table, s[1..]);
      FoldedOfOtherHead(table, s[0], s[1..]);
    }
  }

  lemma FoldedOfSnake(table: CaseTable, s: string)
    requires KnowsAscii(table) && IsAscii(s)
    ensures Folded(Snake(table, s, true), true) == Folded(s, true)
  {
    if s != [] {
      hide Snake, Folded;
      assert s == [s[0]] + s[1..];
      FoldedOfSnakeTail(table, s[1..]);
      SnakeOfHead(table, s[0], s[1..], true);
      FoldedHead(Lower(s[0]), Snake(table, s[1..], false), true);
      FoldedHead(s[0], s[1..], true);
    } else {
      assert Snake(table, s, true) == s;
    }
  }

  /** Two ASCII names get the same generated name exactly when folding makes them the same. */
  lemma NamesCollideExactly(table: CaseTable, s: string, t: string)
    requires KnowsAscii(table) && IsAscii(s) && IsAscii(t)
    ensures Snake(table, s, true) == Snake(table, t, true) <==> Folded(s, true) == Folded(t, true)
  {
    SnakeOfFolded(table, s);
    SnakeOfFolded(table, t);
    FoldedOfSnake(table, s);
    FoldedOfSnake(table, t);
  }

  lemma {:induction false} NothingToFold(s: string, first: bool)
    requires '_' !in s && (first && s != [] ==> !AsciiLower(s[0]))
    ensures Folded(s, first) == s
  {
    if s != [] {
      assert s[0] in s;
      NothingToFold(s[1..], false);
      assert s == [s[0]] + s[1..];
    }
  }

  /** So distinct names that follow the style for rpcs, with no underscore and not starting in lower
      case, never collide. */
  lemma DistinctNamesStayDistinct(table: CaseTable, s: string, t: string)
    requires KnowsAscii(table) && IsAscii(s) && IsAscii(t) && s != t
    requires '_' !in s && (s != [] ==> !AsciiLower(s[0]))
    requires '_' !in t && (t != [] ==> !AsciiLower(t[0]))
    ensures Snake(table, s, true) != Snake(table, t, true)
  {
    NothingToFold(s, true);
    NothingToFold(t, true);
    NamesCollideExactly(table, s, t);
  }

  /** Names that collide, and names outside that style that do not. */
  lemma OtherNamesCollide(table: CaseTable)
    requires KnowsAscii(table)
    ensures Snake(table, "Get", true) == Snake(table, "get", true)
    ensures Snake(table, "AB", true) == Snake(table, "A_b", true)
    ensures Snake(table, "A_", true) != Snake(table, "B_", true)
  {
    FoldedHead('G', "et", true);
    FoldedHead('g', "et", true);
    NamesCollideExactly(table, "Get", "get");
    FoldedHead('A', "B", true);
    FoldedHead('A', "_b", true);
    FoldedHiddenUpper('b', "");
    NothingToFold("B", false);
    NamesCollideExactly(table, "AB", "A_b");
    FoldedHead('A', "_", true);
    FoldedHead('B', "_", true);
    assert Folded("A_", true)[0] == 'A' && Folded("B_", true)[0] == 'B' by {
      assert "A_" == ['A'] + "_" && "B_" == ['B'] + "_";
    }
    NamesCollideExactly(table, "A_", "B_");
  }

  lemma {:induction false} SnakeHasNoUpper(table: CaseTable, s: string, first: bool)
    requires KnowsAscii(table) && IsAscii(s)
    ensures IsAscii(Snake(table, s, first))
    ensures forall i :: 0 <= i < |Snake(table, s, first)| ==> !AsciiUpper(Snake(table, s, first)[i])
  {
    if s != [] { SnakeHasNoUpper(table, s[1..], false); }
  }

  lemma {:induction false} AlreadySnake(table: CaseTable, s: string, first: bool := false)
    requires KnowsAscii(table) && IsAscii(s)
    requires forall i :: 0 <= i < |s| ==> !AsciiUpper(s[i])
    ensures Snake(table, s, first) == s
  {
    if s != [] {
      AlreadySnake(table, s[1..], false);
      assert s == [s[0]] + s[1..];
    }
  }

  lemma SnakeIsIdempotent(table: CaseTable, s: string)
    requires KnowsAscii(table) && IsAscii(s)
    ensures Snake(table, Snake(table, s, true), true) == Snake(table, s, true)
  {
    SnakeHasNoUpper(table, s, true);
    AlreadySnake(table, Snake(table, s, true), true);
  }

  function UppersIn(table: CaseTable, s: string): nat {
    if s == [] then 0 else (if table.isUpper(s[0]) then 1 else 0) + UppersIn(table, s[1..])
  }

  lemma {:induction false} InnerLength(table: CaseTable, s: string)
    ensures |Snake(table, s, false)| == |s| + UppersIn(table, s)
  {
    if s != [] { InnerLength(table, s[1..]); }
  }

  /** Whatever the tables: a first character is put in lower case or kept, and each further one adds an
      underscore and its lower case form if it is upper case, and itself otherwise. */
  lemma {:induction false} SnakeGrowsCharacterByCharacter(table: CaseTable, s: string, c: char, first: bool)
    ensures Snake(table, s + [c], first) == Snake(table, s, first) +
      (if !table.isUpper(c) then [c] else if s == [] && first then [table.lower(c)] else ['_', table.lower(c)])
  {
    var all := s + [c];
    if s == [] {
      assert all == [c] && all[1..] == [];
      assert Snake(table, all[1..], false) == [] && ['_'] + [table.lower(c)] == ['_', table.lower(c)];
    } else {
      SnakeGrowsCharacterByCharacter(table, s[1..], c, false);
      assert all[0] == s[0] && all[1..] == s[1..] + [c];
    }
  }

  /** Whatever the tables, a name grows by one character for each upper case letter but its first. */
  lemma SnakeLength(table: CaseTable, s: string)
    ensures |Snake(table, s, true)| == |s| + (if s == [] then 0 else UppersIn(table, s[1..]))
  {
    if s != [] { InnerLength(table, s[1..]); }
  }
}
