/** Snake case to camel case and back, each regular expression as the scan it performs. */
module NameCase {
  import opened Common

  predicate IsLower(c: char) { 'a' <= c <= 'z' }
  predicate IsUpper(c: char) { 'A' <= c <= 'Z' }
  predicate IsDigit(c: char) { '0' <= c <= '9' }

  function LowerChar(c: char): char { if IsUpper(c) then c - 'A' + 'a' else c }
  function UpperChar(c: char): char { if IsLower(c) then c - 'a' + 'A' else c }

  function Lower(s: string): string { seq(|s|, i requires 0 <= i < |s| => LowerChar(s[i])) }

  function Capitalize(s: string): string {
    if s == "" then "" else [UpperChar(s[0])] + Lower(s[1..])
  }

  /** str.split: the pieces between separators, never none. */
  function Split(s: string, separator: char): (r: seq<string>)
    ensures r != []
  {
    if s == "" then [""]
    else
      var rest := Split(s[1..], separator);
      if s[0] == separator then [""] + rest else [[s[0]] + rest[0]] + rest[1..]
  }

  function CapitalizeAll(words: seq<string>): string {
    if words == [] then "" else Capitalize(words[0]) + CapitalizeAll(words[1..])
  }

  function SnakeToCamel(s: string): string {
    var components := Split(s, '_');
    Lower(components[0]) + CapitalizeAll(components[1..])
  }

  /** How many lower-case letters a string starts with. */
  function LowerRun(s: string): (n: nat)
    ensures n <= |s|
  {
    if s == "" || !IsLower(s[0]) then 0 else 1 + LowerRun(s[1..])
  }

  /** Left to right, an underscore between any character and a capital with lower-case letters
      after it. A match uses up all its characters, so the next one starts behind them. */
  function MarkHumps(s: string): string
    decreases |s|
  {
    if s == "" then ""
    else if |s| >= 3 && s[0] != '\n' && IsUpper(s[1]) && IsLower(s[2]) then
      var end := 2 + LowerRun(s[2..]);
      [s[0]] + "_" + s[1..end] + MarkHumps(s[end..])
    else [s[0]] + MarkHumps(s[1..])
  }

  /** Then an underscore between a lower-case letter or digit and a capital. */
  function MarkCapitals(s: string): string
    decreases |s|
  {
    if s == "" then ""
    else if |s| >= 2 && (IsLower(s[0]) || IsDigit(s[0])) && IsUpper(s[1]) then
      [s[0]] + "_" + [s[1]] + MarkCapitals(s[2..])
    else [s[0]] + MarkCapitals(s[1..])
  }

  function CamelToSnake(s: string): string { Lower(MarkCapitals(MarkHumps(s))) }

  // ---- Any name ----

  /** The second scan marks every capital behind a lower-case letter or a digit: a match never
      uses up what another needs. */
  lemma MarkCapitalsMarksAll(a: char, b: char, rest: string)
    ensures MarkCapitals([a] + ([b] + rest)) == [a]
      + (if ('a' <= a <= 'z' || '0' <= a <= '9') && 'A' <= b <= 'Z' then "_" else "") + MarkCapitals([b] + rest)
  {
    if (IsLower(a) || IsDigit(a)) && IsUpper(b) {
      MatchCapital(a, b, rest);
      SkipCapital(b, rest);
      Associative([a] + "_", [b], MarkCapitals(rest));
    } else {
      SkipCapital(a, [b] + rest);
      assert [a] + "" == [a];
    }
  }

  function NoMark(): char -> bool { c => c != '_' }

  /** A name without its underscores. */
  function Bare(s: string): string { Filter(s, NoMark()) }

  lemma BareConcat(a: string, b: string)
    ensures Bare(a + b) == Bare(a) + Bare(b)
  {
    FilterConcat(a, b, NoMark());
  }

  lemma {:induction false} BareOfLower(s: string)
    ensures Bare(Lower(s)) == Lower(Bare(s))
  {
    if s != "" {
      BareOfLower(s[1..]);
      assert Lower(s) == [LowerChar(s[0])] + Lower(s[1..]);
      LowerConcat([s[0]], Bare(s[1..]));
    }
  }

  lemma BareMark(a: string, b: string)
    ensures Bare(a + "_" + b) == Bare(a + b)
  {
    BareConcat(a + "_", b);
    BareConcat(a, "_");
    BareConcat(a, b);
  }

  lemma {:induction false} MarkCapitalsOnlyMarks(s: string)
    ensures Bare(MarkCapitals(s)) == Bare(s)
    decreases |s|
  {
    if |s| >= 2 && (IsLower(s[0]) || IsDigit(s[0])) && IsUpper(s[1]) {
      MarkCapitalsOnlyMarks(s[2..]);
      BareMark([s[0]], [s[1]]);
      BareConcat([s[0]] + "_" + [s[1]], MarkCapitals(s[2..]));
      BareConcat([s[0]] + [s[1]], s[2..]);
      assert [s[0]] + [s[1]] + s[2..] == s;
    } else if s != "" {
      MarkCapitalsOnlyMarks(s[1..]);
      BareConcat([s[0]], MarkCapitals(s[1..]));
      BareConcat([s[0]], s[1..]);
      assert [s[0]] + s[1..] == s;
    }
  }

  lemma {:induction false} MarkHumpsOnlyMarks(s: string)
    ensures Bare(MarkHumps(s)) == Bare(s)
    decreases |s|
  {
    if |s| >= 3 && s[0] != '\n' && IsUpper(s[1]) && IsLower(s[2]) {
      var end := 2 + LowerRun(s[2..]);
      MarkHumpsOnlyMarks(s[end..]);
      BareMark([s[0]], s[1..end]);
      BareConcat([s[0]] + "_" + s[1..end], MarkHumps(s[end..]));
      BareConcat([s[0]] + s[1..end], s[end..]);
      assert [s[0]] + s[1..end] + s[end..] == s;
    } else if s != "" {
      MarkHumpsOnlyMarks(s[1..]);
      BareConcat([s[0]], MarkHumps(s[1..]));
      BareConcat([s[0]], s[1..]);
      assert [s[0]] + s[1..] == s;
    }
  }

  lemma {:induction false} SplitIsBare(s: string)
    ensures Lower(Split(s, '_')[0]) + Lower(CapitalizeAll(Split(s, '_')[1..])) == Lower(Bare(s))
  {
    if s == "" {
      assert Split(s, '_')[1..] == [];
    } else {
      var rest := Split(s[1..], '_');
      SplitIsBare(s[1..]);
      LowerCapitalize(rest[0]);
      if s[0] == '_' {
        assert Split(s, '_')[1..] == rest && [rest[0]] + rest[1..] == rest;
        LowerConcat(Capitalize(rest[0]), CapitalizeAll(rest[1..]));
        assert Lower("") == "";
      } else {
        assert Split(s, '_')[1..] == rest[1..];
        LowerConcat([s[0]], rest[0]);
        LowerConcat([s[0]], Bare(s[1..]));
        Associative(Lower([s[0]]), Lower(rest[0]), Lower(CapitalizeAll(rest[1..])));
      }
    }
  }

  lemma LowerCapitalize(w: string)
    ensures Lower(Capitalize(w)) == Lower(w)
  {
  }

  function LowerAll(words: seq<string>): seq<string> { seq(|words|, i requires 0 <= i < |words| => Lower(words[i])) }

  lemma {:induction false} SplitOfLower(s: string)
    ensures Split(Lower(s), '_') == LowerAll(Split(s, '_'))
  {
    if s == "" {
      assert Lower("") == "" && LowerAll([""]) == [""];
    } else {
      SplitOfLower(s[1..]);
      assert Lower(s)[1..] == Lower(s[1..]);
      LowerFirstPiece(s[0], Split(s[1..], '_'));
    }
  }

  lemma LowerFirstPiece(c: char, rest: seq<string>)
    requires rest != []
    ensures LowerAll([""] + rest) == [""] + LowerAll(rest)
    ensures LowerAll([[c] + rest[0]] + rest[1..]) == [[LowerChar(c)] + LowerAll(rest)[0]] + LowerAll(rest)[1..]
  {
    assert Lower("") == "";
    assert Lower([c] + rest[0]) == [LowerChar(c)] + Lower(rest[0]);
  }

  lemma {:induction false} CapitalizeAllOfLower(words: seq<string>)
    ensures CapitalizeAll(LowerAll(words)) == CapitalizeAll(words)
  {
    if words != [] {
      CapitalizeAllOfLower(words[1..]);
      assert LowerAll(words)[1..] == LowerAll(words[1..]);
      CapitalizeOfLower(words[0]);
    }
  }

  lemma CapitalizeOfLower(w: string)
    ensures Capitalize(Lower(w)) == Capitalize(w)
  {
    if w != "" {
      assert Lower(w)[1..] == Lower(w[1..]);
      assert Lower(Lower(w[1..])) == Lower(w[1..]);
    }
  }

  /** The case of a snake-case name does not matter. */
  lemma CamelIgnoresCase(s: string)
    ensures SnakeToCamel(Lower(s)) == SnakeToCamel(s)
  {
    SplitOfLower(s);
    var components := Split(s, '_');
    assert LowerAll(components)[1..] == LowerAll(components[1..]);
    CapitalizeAllOfLower(components[1..]);
    assert Lower(Lower(components[0])) == Lower(components[0]);
  }

  /** Converting any name either way changes nothing but underscores and case. */
  lemma OnlyMarksAndCaseChange(s: string)
    ensures Bare(CamelToSnake(s)) == Lower(Bare(s))
    ensures Lower(SnakeToCamel(s)) == Lower(Bare(s))
  {
    BareOfLower(MarkCapitals(MarkHumps(s)));
    MarkCapitalsOnlyMarks(MarkHumps(s));
    MarkHumpsOnlyMarks(s);
    SplitIsBare(s);
    var components := Split(s, '_');
    LowerConcat(Lower(components[0]), CapitalizeAll(components[1..]));
    assert Lower(Lower(components[0])) == Lower(components[0]);
  }

  // ---- Names made of lower-case words ----

  predicate IsWord(w: string) { w != "" && forall i :: 0 <= i < |w| ==> IsLower(w[i]) }

  predicate AreWords(words: seq<string>) { forall i :: 0 <= i < |words| ==> IsWord(words[i]) }

  /** Each word with an underscore before it. */
  function Tail(words: seq<string>): string {
    if words == [] then "" else "_" + words[0] + Tail(words[1..])
  }

  function Join(words: seq<string>): string
    requires words != []
  {
    words[0] + Tail(words[1..])
  }

  lemma {:induction false} SplitWord(w: string, rest: string)
    requires '_' !in w && (rest == "" || rest[0] == '_')
    ensures Split(w + rest, '_') == [w] + (if rest == "" then [] else Split(rest[1..], '_'))
  {
    if w == "" {
      assert w + rest == rest;
    } else {
      assert (w + rest)[0] == w[0] && (w + rest)[1..] == w[1..] + rest;
      SplitWord(w[1..], rest);
      assert [w[0]] + w[1..] == w;
    }
  }

  lemma WordHasNoUnderscore(w: string)
    requires IsWord(w)
    ensures '_' !in w && Lower(w) == w
  {
    assert Lower(w) == w;
  }

  lemma {:induction false} SplitJoin(words: seq<string>)
    requires AreWords(words) && words != []
    ensures Split(Join(words), '_') == words
  {
    WordHasNoUnderscore(words[0]);
    SplitWord(words[0], Tail(words[1..]));
    if |words| > 1 {
      SplitJoin(words[1..]);
      assert words[1..][1..] == words[2..];
      assert Tail(words[1..])[1..] == Join(words[1..]);
    }
  }

  lemma JoinedToCamel(words: seq<string>)
    requires AreWords(words) && words != []
    ensures SnakeToCamel(Join(words)) == words[0] + CapitalizeAll(words[1..])
  {
    SplitJoin(words);
    WordHasNoUnderscore(words[0]);
  }

  lemma CapitalizedWord(w: string)
    requires IsWord(w)
    ensures |Capitalize(w)| == |w| && IsUpper(Capitalize(w)[0]) && Capitalize(w)[1..] == w[1..]
    ensures Lower(Capitalize(w)) == w
  {
    assert Lower(w[1..]) == w[1..];
  }

  lemma HumpsStart(words: seq<string>)
    requires AreWords(words)
    ensures CapitalizeAll(words) == "" <==> words == []
    ensures words != [] ==> IsUpper(CapitalizeAll(words)[0])
  {
    if words != [] {
      CapitalizedWord(words[0]);
    }
  }

  lemma {:induction false} LowerRunOf(t: string, rest: string)
    requires forall i :: 0 <= i < |t| ==> IsLower(t[i])
    requires rest == "" || !IsLower(rest[0])
    ensures LowerRun(t + rest) == |t|
  {
    if t == "" {
      assert t + rest == rest;
    } else {
      assert (t + rest)[1..] == t[1..] + rest;
      LowerRunOf(t[1..], rest);
    }
  }

  /** What the first scan makes of the words after the first: a word of two letters or more
      is marked unless the word before it was, whose match used up the character between. */
  function Humps(words: seq<string>, blocked: bool): string {
    if words == [] then ""
    else if |words[0]| >= 2 && !blocked then "_" + Capitalize(words[0]) + Humps(words[1..], true)
    else Capitalize(words[0]) + Humps(words[1..], false)
  }

  /** A character with lower-case letters but for its first, and no line break. */
  predicate Plain(t: string) { t != "" && t[0] != '\n' && forall i :: 1 <= i < |t| ==> IsLower(t[i]) }

  lemma MatchHump(c: char, hump: string, rest: string)
    requires c != '\n' && |hump| >= 2 && IsUpper(hump[0]) && Plain(hump)
    requires rest == "" || !IsLower(rest[0])
    ensures MarkHumps([c] + (hump + rest)) == [c] + "_" + hump + MarkHumps(rest)
  {
    var s := [c] + (hump + rest);
    Pieces(c, hump, rest);
    LowerRunOf(hump[1..], rest);
    MarkedHump(s, 1 + |hump|);
  }

  lemma Pieces(c: char, hump: string, rest: string)
    requires |hump| >= 2
    ensures var s := [c] + (hump + rest);
      |s| >= 3 && s[0] == c && s[1] == hump[0] && s[2] == hump[1]
      && s[1..1 + |hump|] == hump && s[1 + |hump|..] == rest && s[2..] == hump[1..] + rest
  {
  }

  lemma MarkedHump(s: string, end: nat)
    requires |s| >= 3 && s[0] != '\n' && IsUpper(s[1]) && IsLower(s[2]) && end == 2 + LowerRun(s[2..])
    ensures MarkHumps(s) == [s[0]] + "_" + s[1..end] + MarkHumps(s[end..])
  {
  }

  lemma SkipHump(c: char, s: string)
    requires |s| >= 2 ==> !IsUpper(s[0]) || !IsLower(s[1])
    ensures MarkHumps([c] + s) == [c] + MarkHumps(s)
  {
    assert ([c] + s)[1..] == s;
  }

  lemma {:induction false} MarkHumpsOf(t: string, words: seq<string>)
    requires Plain(t) && AreWords(words)
    ensures MarkHumps(t + CapitalizeAll(words)) == t + Humps(words, false)
    decreases |words|, |t|
  {
    if |t| > 1 {
      var rest := t[1..];
      MarkHumpsOf(rest, words);
      Associative([t[0]], rest, CapitalizeAll(words));
      Associative([t[0]], rest, Humps(words, false));
      assert [t[0]] + rest == t;
      SkipHump(t[0], rest + CapitalizeAll(words));
    } else if words == [] {
      assert t + "" == t && t[1..] == "";
    } else {
      assert [t[0]] == t;
      MarkHumpsAtBoundary(t[0], words);
    }
  }

  lemma {:induction false} MarkHumpsAtBoundary(c: char, words: seq<string>)
    requires c != '\n' && AreWords(words) && words != []
    ensures MarkHumps([c] + CapitalizeAll(words)) == [c] + Humps(words, false)
    decreases |words|, 0
  {
    var hump, rest := Capitalize(words[0]), CapitalizeAll(words[1..]);
    CapitalizedWord(words[0]);
    HumpsStart(words[1..]);
    if |words[0]| == 1 {
      assert [hump[0]] == hump;
      MarkHumpsOf(hump, words[1..]);
      assert |hump + rest| >= 2 ==> (hump + rest)[1] == rest[0];
      SkipHump(c, hump + rest);
    } else {
      MatchHump(c, hump, rest);
      BlockedHumps(words[1..]);
      Associative([c], "_" + hump, Humps(words[1..], true));
      Associative([c], "_", hump);
    }
  }

  lemma {:induction false} BlockedHumps(words: seq<string>)
    requires AreWords(words)
    ensures MarkHumps(CapitalizeAll(words)) == Humps(words, true)
    decreases |words|, 0
  {
    if words != [] {
      CapitalizedWord(words[0]);
      MarkHumpsOf(Capitalize(words[0]), words[1..]);
    }
  }

  // ---- The second scan ----

  /** What the second scan adds: an underscore at every unmarked capital whose character
      before is a lower-case letter, which it is unless the word before has one letter. */
  function Capitals(words: seq<string>, blocked: bool, afterLower: bool): string {
    if words == [] then ""
    else if |words[0]| >= 2 && !blocked then "_" + Capitalize(words[0]) + Capitals(words[1..], true, true)
    else (if afterLower then "_" else "") + Capitalize(words[0]) + Capitals(words[1..], false, |words[0]| >= 2)
  }

  lemma MatchCapital(c: char, upper: char, rest: string)
    requires (IsLower(c) || IsDigit(c)) && IsUpper(upper)
    ensures MarkCapitals([c] + ([upper] + rest)) == [c] + "_" + [upper] + MarkCapitals(rest)
  {
    assert ([c] + ([upper] + rest))[2..] == rest;
  }

  lemma SkipCapital(c: char, s: string)
    requires s != "" && IsUpper(s[0]) ==> !IsLower(c) && !IsDigit(c)
    ensures MarkCapitals([c] + s) == [c] + MarkCapitals(s)
  {
    assert ([c] + s)[1..] == s;
  }

  lemma {:induction false} MarkCapitalsOf(t: string, words: seq<string>, blocked: bool)
    requires Plain(t) && (IsLower(t[0]) || IsUpper(t[0])) && AreWords(words)
    ensures MarkCapitals(t + Humps(words, blocked)) == t + Capitals(words, blocked, IsLower(t[|t| - 1]))
    decreases |words|, |t|
  {
    if |t| > 1 {
      var rest := t[1..];
      MarkCapitalsOf(rest, words, blocked);
      Associative([t[0]], rest, Humps(words, blocked));
      Associative([t[0]], rest, Capitals(words, blocked, IsLower(t[|t| - 1])));
      assert [t[0]] + rest == t && rest[|rest| - 1] == t[|t| - 1];
      SkipCapital(t[0], rest + Humps(words, blocked));
    } else if words == [] {
      assert t + "" == t && t[1..] == "";
    } else {
      assert [t[0]] == t;
      if |words[0]| >= 2 && !blocked {
        MarkedBoundary(t[0], words);
      } else if IsLower(t[0]) {
        LowerBoundary(t[0], words, blocked);
      } else {
        UpperBoundary(t[0], words, blocked);
      }
    }
  }

  lemma {:induction false} MarkedBoundary(c: char, words: seq<string>)
    requires IsLower(c) || IsUpper(c) || c == '_'
    requires AreWords(words) && words != [] && |words[0]| >= 2
    ensures MarkCapitals([c] + Humps(words, false)) == [c] + Capitals(words, false, IsLower(c))
    decreases |words|, 0
  {
    var hump := Capitalize(words[0]);
    CapitalizedWord(words[0]);
    MarkCapitalsOf(hump, words[1..], true);
    Associative("_", hump, Humps(words[1..], true));
    Associative("_", hump, Capitals(words[1..], true, true));
    SkipCapital('_', hump + Humps(words[1..], true));
    SkipCapital(c, Humps(words, false));
  }

  lemma {:induction false} LowerBoundary(c: char, words: seq<string>, blocked: bool)
    requires IsLower(c) && AreWords(words) && words != [] && (|words[0]| == 1 || blocked)
    ensures MarkCapitals([c] + Humps(words, blocked)) == [c] + Capitals(words, blocked, true)
    decreases |words|, 0
  {
    var hump, rest := Capitalize(words[0]), Humps(words[1..], false);
    CapitalizedWord(words[0]);
    var low := hump[1..];
    var after := Capitals(words[1..], false, |words[0]| >= 2);
    assert hump == [hump[0]] + low;
    Associative([hump[0]], low, rest);
    MatchCapital(c, hump[0], low + rest);
    if low == "" {
      UnmarkedRest(words[1..]);
      assert low + rest == rest && low + after == after;
    } else {
      MarkCapitalsOf(low, words[1..], false);
    }
    Regroup([c], "_", [hump[0]], low, after);
  }

  lemma Regroup(a: string, b: string, c: string, d: string, e: string)
    ensures a + b + c + (d + e) == a + (b + (c + d) + e)
  {
  }

  lemma {:induction false} UpperBoundary(c: char, words: seq<string>, blocked: bool)
    requires IsUpper(c) && AreWords(words) && words != [] && (|words[0]| == 1 || blocked)
    ensures MarkCapitals([c] + Humps(words, blocked)) == [c] + Capitals(words, blocked, false)
    decreases |words|, 0
  {
    var hump := Capitalize(words[0]);
    CapitalizedWord(words[0]);
    MarkCapitalsOf(hump, words[1..], false);
    SkipCapital(c, hump + Humps(words[1..], false));
    assert "" + hump == hump;
  }

  lemma {:induction false} UnmarkedRest(words: seq<string>)
    requires AreWords(words)
    ensures MarkCapitals(Humps(words, false)) == Capitals(words, false, false)
    decreases |words|, 0
  {
    if words != [] {
      var hump := Capitalize(words[0]);
      CapitalizedWord(words[0]);
      if |words[0]| >= 2 {
        MarkCapitalsOf(hump, words[1..], true);
        Associative("_", hump, Humps(words[1..], true));
        Associative("_", hump, Capitals(words[1..], true, true));
        SkipCapital('_', hump + Humps(words[1..], true));
      } else {
        MarkCapitalsOf(hump, words[1..], false);
        assert "" + hump == hump;
      }
    }
  }

  // ---- The round trip ----

  /** The words after the first as they come back: a one-letter word after a one-letter word
      has lost its underscore. */
  function Rejoined(words: seq<string>, afterLetter: bool): string {
    if words == [] then ""
    else (if afterLetter && |words[0]| == 1 then "" else "_") + words[0] + Rejoined(words[1..], |words[0]| == 1)
  }

  lemma LowerConcat(a: string, b: string)
    ensures Lower(a + b) == Lower(a) + Lower(b)
  {
  }

  lemma {:induction false} LowerCapitals(words: seq<string>, blocked: bool, afterLower: bool)
    requires AreWords(words) && (blocked ==> afterLower)
    ensures Lower(Capitals(words, blocked, afterLower)) == Rejoined(words, !afterLower)
  {
    if words != [] {
      var w := words[0];
      CapitalizedWord(w);
      var mark := if (|w| >= 2 && !blocked) || afterLower then "_" else "";
      var marks := |w| >= 2 && !blocked;
      LowerCapitals(words[1..], marks, |w| >= 2);
      LowerConcat(mark, Capitalize(w));
      LowerConcat(mark + Capitalize(w), Capitals(words[1..], marks, |w| >= 2));
      assert Lower(mark) == mark;
    }
  }

  /** What any name made of lower-case words comes back as. */
  lemma ThereAndBack(words: seq<string>)
    requires AreWords(words) && words != []
    ensures CamelToSnake(SnakeToCamel(Join(words))) == words[0] + Rejoined(words[1..], false)
  {
    JoinedToCamel(words);
    var w, rest := words[0], words[1..];
    MarkHumpsOf(w, rest);
    MarkCapitalsOf(w, rest, false);
    LowerConcat(w, Capitals(rest, false, true));
    LowerCapitals(rest, false, true);
    WordHasNoUnderscore(w);
  }

  /** Somewhere after the first word, two one-letter words stand side by side. */
  predicate LettersSideBySide(words: seq<string>) {
    exists i :: 1 <= i < |words| - 1 && |words[i]| == 1 && |words[i + 1]| == 1
  }

  ghost predicate Apart(words: seq<string>, afterLetter: bool) {
    && (afterLetter && words != [] ==> |words[0]| != 1)
    && forall i :: 0 <= i < |words| - 1 ==> |words[i]| != 1 || |words[i + 1]| != 1
  }

  lemma {:induction false} RejoinedIsTailIff(words: seq<string>, afterLetter: bool)
    requires AreWords(words)
    ensures |Rejoined(words, afterLetter)| <= |Tail(words)|
    ensures Apart(words, afterLetter) ==> Rejoined(words, afterLetter) == Tail(words)
    ensures !Apart(words, afterLetter) ==> |Rejoined(words, afterLetter)| < |Tail(words)|
  {
    if words != [] {
      RejoinedIsTailIff(words[1..], |words[0]| == 1);
      ApartRest(words, afterLetter);
    }
  }

  lemma ApartRest(words: seq<string>, afterLetter: bool)
    requires words != []
    ensures Apart(words, afterLetter) <==> (afterLetter ==> |words[0]| != 1) && Apart(words[1..], |words[0]| == 1)
  {
    if (afterLetter ==> |words[0]| != 1) && Apart(words[1..], |words[0]| == 1) {
      forall i | 0 <= i < |words| - 1 ensures |words[i]| != 1 || |words[i + 1]| != 1 {
        if i > 0 {
          assert words[1..][i - 1] == words[i] && words[1..][i] == words[i + 1];
        }
      }
    }
  }

  /** The round trip gives the name back exactly when no two one-letter words stand side by
      side after the first word. */
  lemma RoundTripIff(words: seq<string>)
    requires AreWords(words) && words != []
    ensures CamelToSnake(SnakeToCamel(Join(words))) == Join(words) <==> !LettersSideBySide(words)
  {
    ThereAndBack(words);
    RejoinedIsTailIff(words[1..], false);
    if Apart(words[1..], false) {
      forall i | 1 <= i < |words| - 1 ensures |words[i]| != 1 || |words[i + 1]| != 1 {
        assert words[1..][i - 1] == words[i] && words[1..][i] == words[i + 1];
      }
    } else {
      var i :| 0 <= i < |words[1..]| - 1 && |words[1..][i]| == 1 && |words[1..][i + 1]| == 1;
      assert |words[i + 1]| == 1 && |words[i + 1 + 1]| == 1;
      assert |words[0] + Rejoined(words[1..], false)| < |Join(words)|;
    }
  }

  /** In particular when every word after the first has two letters or more. */
  lemma LongWordsRoundTrip(words: seq<string>)
    requires AreWords(words) && words != []
    requires forall i :: 1 <= i < |words| ==> |words[i]| >= 2
    ensures CamelToSnake(SnakeToCamel(Join(words))) == Join(words)
  {
    RoundTripIff(words);
  }

  /** The first scan alone loses every second boundary of such names. */
  lemma FirstScanAloneFails(words: seq<string>)
    requires AreWords(words) && |words| >= 3 && |words[1]| >= 2 && |words[2]| >= 2
    ensures Lower(MarkHumps(SnakeToCamel(Join(words)))) != Join(words)
  {
    JoinedToCamel(words);
    MarkHumpsOf(words[0], words[1..]);
    var rest := words[1..];
    assert rest[0] == words[1] && rest[1..][0] == words[2];
    HumpsAreShorter(rest[1..], true);
    CapitalizedWord(words[1]);
    assert Humps(rest, false) == "_" + Capitalize(words[1]) + Humps(rest[1..], true);
    assert |Join(words)| == |words[0]| + 1 + |words[1]| + |Tail(rest[1..])|;
  }

  lemma {:induction false} HumpsAreShorter(words: seq<string>, blocked: bool)
    requires AreWords(words)
    ensures |Humps(words, blocked)| <= |Tail(words)|
    ensures blocked && words != [] ==> |Humps(words, blocked)| < |Tail(words)|
  {
    if words != [] {
      CapitalizedWord(words[0]);
      HumpsAreShorter(words[1..], |words[0]| >= 2 && !blocked);
    }
  }

  /** The second scan alone loses the boundary after a one-letter word. */
  lemma SecondScanAloneFails(a: string, b: string, c: string)
    requires AreWords([a, b, c]) && |b| == 1 && |c| >= 2
    ensures Lower(MarkCapitals(SnakeToCamel(Join([a, b, c])))) != Join([a, b, c])
    ensures CamelToSnake(SnakeToCamel(Join([a, b, c]))) == Join([a, b, c])
  {
    var words := [a, b, c];
    assert IsWord(words[0]) && IsWord(words[1]) && IsWord(words[2]);
    RoundTripIff(words);
    JoinedToCamel(words);
    var hump := Capitalize(b) + Capitalize(c);
    assert words[1..] == [b, c] && [b, c][1..] == [c] && [c][1..] == [];
    CapitalizedWord(b);
    CapitalizedWord(c);
    MarksAtMostOne(a, b, c);
    assert Tail([c]) == "_" + c + "" && Tail([b, c]) == "_" + b + Tail([c]);
  }

  lemma {:induction false} PlainUnmarked(s: string)
    requires forall i :: 0 <= i < |s| ==> IsLower(s[i])
    ensures MarkCapitals(s) == s
  {
    if s != "" {
      PlainUnmarked(s[1..]);
    }
  }

  lemma {:induction false} MarksAtMostOne(a: string, b: string, c: string)
    requires IsWord(a) && IsWord(b) && IsWord(c) && |b| == 1 && |c| >= 2
    ensures CapitalizeAll([b, c]) == Capitalize(b) + Capitalize(c)
    ensures |MarkCapitals(a + (Capitalize(b) + Capitalize(c)))| == |a| + |c| + 2
    decreases |a|
  {
    CapitalizedWord(b);
    CapitalizedWord(c);
    assert [b, c][1..] == [c] && [c][1..] == [];
    assert CapitalizeAll([]) == "" && CapitalizeAll([c]) == Capitalize(c) + "" == Capitalize(c);
    var hump := Capitalize(b) + Capitalize(c);
    if |a| > 1 {
      assert a == [a[0]] + a[1..];
      Associative([a[0]], a[1..], hump);
      SkipCapital(a[0], a[1..] + hump);
      MarksAtMostOne(a[1..], b, c);
    } else {
      var capital, low := Capitalize(c)[0], c[1..];
      assert hump == [Capitalize(b)[0]] + ([capital] + low);
      assert a == [a[0]];
      MatchCapital(a[0], Capitalize(b)[0], [capital] + low);
      SkipCapital(capital, low);
      PlainUnmarked(low);
    }
  }
}
