/**
 Searching lists (`like_pattern` and `text_filter` of `listing.py`): a pattern for the LIKE predicate with ESCAPE (section
 8.5 of ISO/IEC 9075-2) that finds a text literally. Case folding and white space are those of ASCII.
*/
module Like {
  import opened Common

  // ---------------------------------------------------------------- string functions

  predicate IsSpace(c: char) {
    c == ' ' || 9 as char <= c <= 13 as char || 28 as char <= c <= 31 as char
  }

  /** White space is the space, the five control characters from tab to carriage return and the four separators. */
  lemma SpacesAreTen(c: char)
    ensures IsSpace(c) <==> c as int in {9, 10, 11, 12, 13, 28, 29, 30, 31, 32}
  {
  }

  function Lstrip(s: string): string {
    if s != "" && IsSpace(s[0]) then Lstrip(s[1..]) else s
  }

  function Rstrip(s: string): string {
    if s != "" && IsSpace(s[|s| - 1]) then Rstrip(s[..|s| - 1]) else s
  }

  function Strip(s: string): string { Rstrip(Lstrip(s)) }

  predicate AllSpace(s: string) { forall i | 0 <= i < |s| :: IsSpace(s[i]) }

  lemma {:induction false} LstripCuts(s: string) returns (before: string)
    ensures AllSpace(before) && s == before + Lstrip(s) && (Lstrip(s) == "" || !IsSpace(Lstrip(s)[0]))
  {
    before := "";
    if s != "" && IsSpace(s[0]) {
      before := LstripCuts(s[1..]);
      before := [s[0]] + before;
    }
  }

  lemma {:induction false} RstripCuts(s: string) returns (after: string)
    ensures AllSpace(after) && s == Rstrip(s) + after && (Rstrip(s) == "" || !IsSpace(Rstrip(s)[|Rstrip(s)| - 1]))
  {
    after := "";
    if s != "" && IsSpace(s[|s| - 1]) {
      after := RstripCuts(s[..|s| - 1]);
      after := after + [s[|s| - 1]];
    }
  }

  /** Stripping takes white space off both ends and leaves none there. */
  lemma StripTrims(s: string) returns (before: string, after: string)
    ensures AllSpace(before) && AllSpace(after) && s == before + Strip(s) + after
    ensures Strip(s) != "" ==> !IsSpace(Strip(s)[0]) && !IsSpace(Strip(s)[|Strip(s)| - 1])
  {
    before := LstripCuts(s);
    after := RstripCuts(Lstrip(s));
    assert s == before + (Strip(s) + after);
  }

  function LowerChar(c: char): char {
    if 'A' <= c <= 'Z' then (c as int + 32) as char else c
  }

  function Lower(s: string): (r: string)
    ensures |r| == |s| && forall i | 0 <= i < |s| :: r[i] == LowerChar(s[i])
  {
    if s == "" then "" else [LowerChar(s[0])] + Lower(s[1..])
  }

  predicate IsLetter(c: char) { 'a' <= c <= 'z' || 'A' <= c <= 'Z' }

  /** One character, or the two cases of one ASCII letter. */
  predicate SameButCase(c: char, d: char) {
    c == d || (IsLetter(c) && IsLetter(d) && (c as int == d as int + 32 || d as int == c as int + 32))
  }

  lemma FoldedChar(c: char, d: char)
    ensures LowerChar(c) == LowerChar(d) <==> SameButCase(c, d)
  {
  }

  predicate AllSameButCase(s: string, t: string) { |s| == |t| && forall i | 0 <= i < |s| :: SameButCase(s[i], t[i]) }

  lemma FoldedSame(s: string, t: string)
    requires AllSameButCase(s, t)
    ensures Lower(s) == Lower(t)
  {
    var x, y := Lower(s), Lower(t);
    forall i | 0 <= i < |x| ensures x[i] == y[i] {
      FoldedChar(s[i], t[i]);
    }
  }

  lemma SameFolded(s: string, t: string)
    requires Lower(s) == Lower(t)
    ensures AllSameButCase(s, t)
  {
    var x, y := Lower(s), Lower(t);
    assert |s| == |x| == |y| == |t|;
    forall i | 0 <= i < |s| ensures SameButCase(s[i], t[i]) {
      assert x[i] == LowerChar(s[i]) && y[i] == LowerChar(t[i]);
      FoldedChar(s[i], t[i]);
    }
  }

  /** Folding makes two texts equal if and only if they differ in the case of ASCII letters alone. */
  lemma FoldingIgnoresCase(s: string, t: string)
    ensures Lower(s) == Lower(t) <==> AllSameButCase(s, t)
  {
    if AllSameButCase(s, t) {
      FoldedSame(s, t);
    } else if Lower(s) == Lower(t) {
      SameFolded(s, t);
    }
  }

  /** `str.replace` of one character. */
  function Replace(s: string, c: char, subst: string): string {
    if s == "" then "" else (if s[0] == c then subst else [s[0]]) + Replace(s[1..], c, subst)
  }

  predicate Contains(text: string, part: string) {
    exists i :: 0 <= i <= |text| && part <= text[i..]
  }

  // ---------------------------------------------------------------- the pattern

  predicate IsSpecial(c: char) { c == '\\' || c == '%' || c == '_' }

  /** Every special character on its own gets a backslash. */
  function EscapeEach(s: string): string {
    if s == "" then "" else EscapeOne(s[0]) + EscapeEach(s[1..])
  }

  function EscapeOne(c: char): string { if IsSpecial(c) then ['\\', c] else [c] }

  function Escaped(s: string): string {
    Replace(Replace(Replace(s, '\\', "\\\\"), '%', "\\%"), '_', "\\_")
  }

  function LikePattern(q: string): string { "%" + Escaped(Lower(Strip(q))) + "%" }

  lemma ReplaceNext(s: string, t: string, c: char, subst: string, rest: string)
    requires s != "" && Replace(s[1..] + t, c, subst) == rest
    ensures Replace(s + t, c, subst) == (if s[0] == c then subst else [s[0]]) + rest
  {
    assert (s + t)[1..] == s[1..] + t;
  }

  lemma JoinInOrder(a: string, b: string, c: string)
    ensures a + (b + c) == a + b + c
  {
  }

  lemma {:induction false} ReplaceOver(s: string, t: string, c: char, subst: string)
    ensures Replace(s + t, c, subst) == Replace(s, c, subst) + Replace(t, c, subst)
  {
    if s == "" {
      assert s + t == t;
    } else {
      ReplaceOver(s[1..], t, c, subst);
      ReplaceNext(s, t, c, subst, Replace(s[1..], c, subst) + Replace(t, c, subst));
      JoinInOrder(if s[0] == c then subst else [s[0]], Replace(s[1..], c, subst), Replace(t, c, subst));
    }
  }

  lemma ReplaceOne(x: char, c: char, subst: string)
    ensures Replace([x], c, subst) == if x == c then subst else [x]
  {
    assert [x][1..] == "";
    assert Replace("", c, subst) == "";
  }

  lemma ReplaceTwo(x: char, y: char, c: char, subst: string)
    ensures Replace([x, y], c, subst) == (if x == c then subst else [x]) + (if y == c then subst else [y])
  {
    ReplaceOne(x, c, subst);
    ReplaceOne(y, c, subst);
    ReplaceOver([x], [y], c, subst);
    assert [x] + [y] == [x, y];
  }

  lemma EscapedOne(x: char)
    ensures Escaped([x]) == if IsSpecial(x) then ['\\', x] else [x]
  {
    ReplaceOne(x, '\\', "\\\\");
    if x == '\\' {
      ReplaceTwo('\\', '\\', '%', "\\%");
      ReplaceTwo('\\', '\\', '_', "\\_");
    } else {
      ReplaceOne(x, '%', "\\%");
      if x == '%' {
        ReplaceTwo('\\', '%', '_', "\\_");
      } else {
        ReplaceOne(x, '_', "\\_");
      }
    }
  }

  /** The three replacements in a row escape every special character exactly once. */
  lemma {:induction false} ReplacesEscapeEach(s: string)
    ensures Escaped(s) == EscapeEach(s)
  {
    if s != "" {
      var x, rest := s[0], s[1..];
      ReplacesEscapeEach(rest);
      EscapedOne(x);
      assert s == [x] + rest;
      ReplaceOver([x], rest, '\\', "\\\\");
      ReplaceOver(Replace([x], '\\', "\\\\"), Replace(rest, '\\', "\\\\"), '%', "\\%");
      ReplaceOver(Replace(Replace([x], '\\', "\\\\"), '%', "\\%"), Replace(Replace(rest, '\\', "\\\\"), '%', "\\%"), '_', "\\_");
    }
  }

  // ---------------------------------------------------------------- the LIKE predicate

  datatype Token = Literal(c: char) | One | Any

  /** The tokens of a pattern with `\` as escape character; none if an escape precedes an ordinary character or the end. */
  function Tokens(p: string): Option<seq<Token>> {
    if p == "" then Some([])
    else if p[0] == '\\' then
      if |p| == 1 || !IsSpecial(p[1]) then None
      else match Tokens(p[2..])
           case None => None
           case Some(rest) => Some([Literal(p[1])] + rest)
    else match Tokens(p[1..])
         case None => None
         case Some(rest) => Some([if p[0] == '%' then Any else if p[0] == '_' then One else Literal(p[0])] + rest)
  }

  predicate Matches(tokens: seq<Token>, s: string)
    decreases |tokens| + |s|
  {
    if tokens == [] then s == ""
    else match tokens[0]
      case Any => Matches(tokens[1..], s) || (s != "" && Matches(tokens, s[1..]))
      case One => s != "" && Matches(tokens[1..], s[1..])
      case Literal(c) => s != "" && s[0] == c && Matches(tokens[1..], s[1..])
  }

  /** ILIKE with a backslash as escape character: both sides folded; a missing value or an invalid pattern matches nothing. */
  predicate Ilike(column: Option<string>, pattern: string) {
    column.Some? &&
    match Tokens(Lower(pattern))
    case None => false
    case Some(tokens) => Matches(tokens, Lower(column.value))
  }

  function Literals(s: string): seq<Token> {
    if s == "" then [] else [Literal(s[0])] + Literals(s[1..])
  }

  lemma OneReadsBack(c: char, rest: string, read: seq<Token>)
    requires Tokens(rest) == Some(read)
    ensures Tokens(EscapeOne(c) + rest) == Some([Literal(c)] + read)
  {
    assert (EscapeOne(c) + rest)[|EscapeOne(c)|..] == rest;
  }

  lemma EscapedFirst(s: string, p: string)
    requires s != ""
    ensures EscapeEach(s) + p == EscapeOne(s[0]) + (EscapeEach(s[1..]) + p)
  {
  }

  lemma LiteralFirst(s: string, read: seq<Token>)
    requires s != ""
    ensures Literals(s) + read == [Literal(s[0])] + (Literals(s[1..]) + read)
  {
  }

  /** An escaped text is read back as its own characters, and what follows is read as before. */
  lemma {:induction false} EscapedReadsBack(s: string, p: string, read: seq<Token>)
    requires Tokens(p) == Some(read)
    ensures Tokens(EscapeEach(s) + p) == Some(Literals(s) + read)
  {
    if s == "" {
      assert EscapeEach(s) + p == p && Literals(s) + read == read;
    } else {
      EscapedReadsBack(s[1..], p, read);
      OneReadsBack(s[0], EscapeEach(s[1..]) + p, Literals(s[1..]) + read);
      EscapedFirst(s, p);
      LiteralFirst(s, read);
    }
  }

  lemma {:induction false} AnyMatchesAll(s: string)
    ensures Matches([Any], s)
  {
    assert [Any][1..] == [];
    if s != "" { AnyMatchesAll(s[1..]); }
  }

  lemma PrefixByFirst(x: string, s: string)
    requires x != "" && s != ""
    ensures x <= s <==> x[0] == s[0] && x[1..] <= s[1..]
  {
    if x[0] == s[0] && x[1..] <= s[1..] {
      assert x == [x[0]] + x[1..] && s == [s[0]] + s[1..];
    }
  }

  /** A literal text followed by `%` matches exactly the texts that start with it. */
  lemma {:induction false} PrefixMatch(x: string, s: string)
    ensures Matches(Literals(x) + [Any], s) <==> x <= s
  {
    if x == "" {
      assert Literals(x) + [Any] == [Any];
      AnyMatchesAll(s);
    } else {
      var tokens := Literals(x) + [Any];
      assert tokens[0] == Literal(x[0]) && tokens[1..] == Literals(x[1..]) + [Any];
      if s != "" {
        PrefixMatch(x[1..], s[1..]);
        PrefixByFirst(x, s);
      }
    }
  }

  lemma {:induction false} SubstringMatch(x: string, s: string)
    ensures Matches([Any] + Literals(x) + [Any], s) <==> Contains(s, x)
  {
    var tokens := [Any] + Literals(x) + [Any];
    assert tokens[1..] == Literals(x) + [Any];
    PrefixMatch(x, s);
    assert s[0..] == s;
    if s != "" {
      SubstringMatch(x, s[1..]);
      forall i | 0 < i <= |s| ensures s[i..] == s[1..][i - 1..] {
      }
      if Contains(s[1..], x) {
        var i :| 0 <= i <= |s[1..]| && x <= s[1..][i..];
        assert x <= s[i + 1..];
      }
    }
  }

  lemma {:induction false} FoldEscaped(s: string)
    ensures Lower(EscapeEach(Lower(s))) == EscapeEach(Lower(s))
  {
    var e := EscapeEach(Lower(s));
    if s != "" {
      FoldEscaped(s[1..]);
      assert Lower(s)[1..] == Lower(s[1..]);
    }
  }

  lemma FoldedPattern(s: string)
    ensures var p := "%" + EscapeEach(Lower(s)) + "%"; Lower(p) == p
  {
    FoldEscaped(s);
    var e := EscapeEach(Lower(s));
    var p := "%" + e + "%";
    forall i | 0 <= i < |p| ensures LowerChar(p[i]) == p[i] {
      if 0 < i < |p| - 1 {
        assert p[i] == e[i - 1] == Lower(e)[i - 1];
      }
    }
  }

  lemma OneToken(c: char)
    requires c != '\\'
    ensures Tokens([c]) == Some([if c == '%' then Any else if c == '_' then One else Literal(c)])
  {
    var t := if c == '%' then Any else if c == '_' then One else Literal(c);
    assert [c][1..] == "";
    assert [t] + [] == [t];
  }

  lemma PatternTokens(x: string)
    ensures Tokens("%" + EscapeEach(x) + "%") == Some([Any] + Literals(x) + [Any])
  {
    OneToken('%');
    EscapedReadsBack(x, "%", [Any]);
    var p := "%" + EscapeEach(x) + "%";
    assert p[1..] == EscapeEach(x) + "%";
    assert [Any] + (Literals(x) + [Any]) == [Any] + Literals(x) + [Any];
  }

  /**
   The pattern built from a query finds a column if and only if the column's text contains the trimmed query, without
   regard to case, whatever wildcards or backslashes the query has.
  */
  lemma PatternFindsText(q: string, text: string)
    ensures Ilike(Some(text), LikePattern(q)) <==> Contains(Lower(text), Lower(Strip(q)))
  {
    var x := Lower(Strip(q));
    ReplacesEscapeEach(x);
    var p := LikePattern(q);
    FoldedPattern(Strip(q));
    PatternTokens(x);
    SubstringMatch(x, Lower(text));
  }

  // ---------------------------------------------------------------- the filter

  /** The rows that pass, in order; a query of white space alone filters nothing. */
  function TextFilter(rows: seq<seq<Option<string>>>, q: Option<string>): seq<seq<Option<string>>> {
    if rows == [] then []
    else
      var before, row := TextFilter(rows[..|rows| - 1], q), rows[|rows| - 1];
      if q.None? || Strip(q.value) == "" || (exists i :: 0 <= i < |row| && Ilike(row[i], LikePattern(q.value))) then before + [row] else before
  }

  /** A row is listed if and only if there is no query or one of its columns contains it. */
  lemma {:induction false} FilterFinds(rows: seq<seq<Option<string>>>, q: Option<string>, row: seq<Option<string>>)
    ensures row in TextFilter(rows, q) <==>
              row in rows && (q.None? || Strip(q.value) == "" ||
                              exists i :: 0 <= i < |row| && row[i].Some? && Contains(Lower(row[i].value), Lower(Strip(q.value))))
  {
    if rows != [] {
      var init, last := rows[..|rows| - 1], rows[|rows| - 1];
      FilterFinds(init, q, row);
      assert rows == init + [last];
      if q.Some? {
        forall i | 0 <= i < |last| && last[i].Some? ensures Ilike(last[i], LikePattern(q.value)) <==> Contains(Lower(last[i].value), Lower(Strip(q.value))) {
          PatternFindsText(q.value, last[i].value);
        }
      }
    }
  }
}
