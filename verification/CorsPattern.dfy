/**
 The CORS origin check of src/infrastructure/config/config.service.ts.

 A glob is compiled to the source text of a regular expression. The text is read back by a parser
 for the Pattern grammar of ECMA-262 (section 22.2.1) and run by the backtracking matcher of
 section 22.2.2, and the result is compared with the meaning of the glob. JavaScript strings are
 sequences of UTF-16 code units, and so are the texts here.
 */
module CorsPattern {
  import opened Common

  type CodeUnit = u: int | 0 <= u < 0x1_0000
  type Text = seq<CodeUnit>

  const STAR: CodeUnit := '*' as int
  const DOT: CodeUnit := '.' as int
  const PLUS: CodeUnit := '+' as int
  const QUESTION: CodeUnit := '?' as int
  const CARET: CodeUnit := '^' as int
  const DOLLAR: CodeUnit := '$' as int
  const BAR: CodeUnit := '|' as int
  const BACKSLASH: CodeUnit := '\\' as int
  const SLASH: CodeUnit := '/' as int

  predicate IsBracket(u: CodeUnit) {
    u == '(' as int || u == ')' as int || u == '[' as int || u == ']' as int || u == '{' as int || u == '}' as int
  }

  predicate IsLineTerminator(u: CodeUnit) {
    u == 0x0A || u == 0x0D || u == 0x2028 || u == 0x2029
  }

  predicate OneLine(s: Text) {
    forall k | 0 <= k < |s| :: !IsLineTerminator(s[k])
  }

  // ---------------------------------------------------------------- the service

  /** The character class that the service's first replace escapes; `*` is not in it. */
  predicate IsEscaped(u: CodeUnit) {
    u == DOT || u == PLUS || u == QUESTION || u == CARET || u == DOLLAR || u == BAR || u == BACKSLASH || IsBracket(u)
  }

  function EscapeSpecials(pattern: Text): Text {
    if pattern == [] then []
    else (if IsEscaped(pattern[0]) then [BACKSLASH, pattern[0]] else [pattern[0]]) + EscapeSpecials(pattern[1..])
  }

  function ReplaceStars(text: Text): Text {
    if text == [] then []
    else (if text[0] == STAR then [DOT, STAR] else [text[0]]) + ReplaceStars(text[1..])
  }

  /** The text handed to the RegExp constructor. */
  function WildcardSource(pattern: Text): Text {
    [CARET] + ReplaceStars(EscapeSpecials(pattern)) + [DOLLAR]
  }

  predicate MatchesCorsOrigin(origin: Text, allowedOrigin: Text) {
    if allowedOrigin == origin then true
    else if STAR !in allowedOrigin then false
    else
      SourceParses(allowedOrigin);
      Test(ParsePattern(WildcardSource(allowedOrigin), []).value, origin, 0)
  }

  // ---------------------------------------------------------------- ECMA-262 patterns

  datatype Atom = Literal(unit: CodeUnit) | AnyButLineTerminator

  datatype Term =
    | AtStart
    | AtEnd
    | Once(atom: Atom)
    | Repeat(atom: Atom, min: nat, max: Option<nat>, greedy: bool)

  type Alternative = seq<Term>
  type Pattern = seq<Alternative>

  /** Atom with its optional quantifier, and the text after it. A brace is left for the caller to refuse. */
  function ParseQuantifier(atom: Atom, text: Text): (r: (Term, Text))
    ensures |r.1| <= |text|
  {
    if text == [] then (Once(atom), text)
    else
      var greedy := |text| == 1 || text[1] != QUESTION;
      var rest := if greedy then text[1..] else text[2..];
      if text[0] == STAR then (Repeat(atom, 0, None, greedy), rest)
      else if text[0] == PLUS then (Repeat(atom, 1, None, greedy), rest)
      else if text[0] == QUESTION then (Repeat(atom, 0, Some(1), greedy), rest)
      else (Once(atom), text)
  }

  /** One Term. None: no term of the fragment starts here (a group, a class, a brace, a stray quantifier). */
  function ParseTerm(text: Text): (r: Option<(Term, Text)>)
    requires text != [] && text[0] != BAR
    ensures r.Some? ==> |r.value.1| < |text|
  {
    var u := text[0];
    if u == CARET then Some((AtStart, text[1..]))
    else if u == DOLLAR then Some((AtEnd, text[1..]))
    else if u == DOT then Some(ParseQuantifier(AnyButLineTerminator, text[1..]))
    else if u == BACKSLASH then
      if |text| > 1 && (IsEscaped(text[1]) || text[1] == STAR || text[1] == SLASH)
      then Some(ParseQuantifier(Literal(text[1]), text[2..]))
      else None
    else if IsBracket(u) || u == STAR || u == PLUS || u == QUESTION then None
    else Some(ParseQuantifier(Literal(u), text[1..]))
  }

  /** Disjunction: alternatives separated by bars; `done` holds the terms of the alternative being read. */
  function ParsePattern(text: Text, done: Alternative): Option<Pattern>
    decreases |text|
  {
    if text == [] then Some([done])
    else if text[0] == BAR then
      match ParsePattern(text[1..], [])
      case None => None
      case Some(rest) => Some([done] + rest)
    else
      match ParseTerm(text)
      case None => None
      case Some((term, rest)) => ParsePattern(rest, done + [term])
  }

  predicate Accepts(atom: Atom, u: CodeUnit) {
    match atom
    case Literal(v) => u == v
    case AnyButLineTerminator => !IsLineTerminator(u)
  }

  /** The matcher of a term list at index i. The continuation of a term is the rest of the list. */
  predicate MatchTerms(terms: Alternative, s: Text, i: nat)
    requires i <= |s|
    decreases |terms|, |s| - i, 1
  {
    if terms == [] then true
    else
      match terms[0]
      case AtStart => i == 0 && MatchTerms(terms[1..], s, i)
      case AtEnd => i == |s| && MatchTerms(terms[1..], s, i)
      case Once(a) => i < |s| && Accepts(a, s[i]) && MatchTerms(terms[1..], s, i + 1)
      case Repeat(a, min, max, greedy) => MatchRepeat(a, min, max, greedy, terms[1..], s, i)
  }

  /** RepeatMatcher. Its empty check never fires: an atom consumes exactly one code unit. */
  predicate MatchRepeat(a: Atom, min: nat, max: Option<nat>, greedy: bool, rest: Alternative, s: Text, i: nat)
    requires i <= |s|
    decreases |rest| + 1, |s| - i, 0
  {
    if max == Some(0) then MatchTerms(rest, s, i)
    else
      var min2 := if min == 0 then 0 else min - 1;
      var max2 := if max.None? then None else Some(max.value - 1);
      if min != 0 then i < |s| && Accepts(a, s[i]) && MatchRepeat(a, min2, max2, greedy, rest, s, i + 1)
      else if greedy then
        (i < |s| && Accepts(a, s[i]) && MatchRepeat(a, min2, max2, greedy, rest, s, i + 1)) || MatchTerms(rest, s, i)
      else
        MatchTerms(rest, s, i) || (i < |s| && Accepts(a, s[i]) && MatchRepeat(a, min2, max2, greedy, rest, s, i + 1))
  }

  predicate MatchPattern(p: Pattern, s: Text, i: nat)
    requires i <= |s|
  {
    exists k | 0 <= k < |p| :: MatchTerms(p[k], s, i)
  }

  /** RegExp.prototype.test: try every start index from `from` on. */
  predicate Test(p: Pattern, s: Text, from: nat)
    requires from <= |s|
    decreases |s| - from
  {
    MatchPattern(p, s, from) || (from < |s| && Test(p, s, from + 1))
  }

  // ---------------------------------------------------------------- what a glob means

  function Stars(glob: Text): nat {
    if glob == [] then 0 else (if glob[0] == STAR then 1 else 0) + Stars(glob[1..])
  }

  /** The glob with its stars replaced, left to right, by the given texts. */
  function Instantiate(glob: Text, fills: seq<Text>): Text
    requires |fills| == Stars(glob)
  {
    if glob == [] then []
    else if glob[0] == STAR then fills[0] + Instantiate(glob[1..], fills[1..])
    else [glob[0]] + Instantiate(glob[1..], fills)
  }

  ghost predicate GlobMatches(glob: Text, s: Text) {
    exists fills: seq<Text> :: |fills| == Stars(glob) && Instantiate(glob, fills) == s
  }

  /** As GlobMatches, but no star stands for a text that holds a line terminator. */
  ghost predicate OneLineGlobMatches(glob: Text, s: Text) {
    exists fills: seq<Text> ::
      |fills| == Stars(glob) && Instantiate(glob, fills) == s && forall k | 0 <= k < |fills| :: OneLine(fills[k])
  }

  // ---------------------------------------------------------------- the text parses as intended

  function Compile(glob: Text): Alternative {
    if glob == [] then []
    else [if glob[0] == STAR then Repeat(AnyButLineTerminator, 0, None, true) else Once(Literal(glob[0]))]
         + Compile(glob[1..])
  }

  function Body(glob: Text): Text {
    ReplaceStars(EscapeSpecials(glob))
  }

  lemma ReplaceStarsConcat(a: Text, b: Text)
    ensures ReplaceStars(a + b) == ReplaceStars(a) + ReplaceStars(b)
  {
    if a == [] {
      assert a + b == b;
    } else {
      assert (a + b)[1..] == a[1..] + b;
      ReplaceStarsConcat(a[1..], b);
    }
  }

  lemma BodyUnfold(glob: Text)
    requires glob != []
    ensures Body(glob) ==
            (if glob[0] == STAR then [DOT, STAR]
             else if IsEscaped(glob[0]) then [BACKSLASH, glob[0]]
             else [glob[0]]) + Body(glob[1..])
  {
    var head := if IsEscaped(glob[0]) then [BACKSLASH, glob[0]] else [glob[0]];
    ReplaceStarsConcat(head, EscapeSpecials(glob[1..]));
    assert head[1..] == [] || head[1..] == [glob[0]];
    if IsEscaped(glob[0]) {
      assert ReplaceStars([glob[0]]) == [glob[0]];
      assert ReplaceStars(head) == head;
    }
  }

  predicate NoQuantifierFirst(text: Text) {
    text != [] && text[0] != STAR && text[0] != PLUS && text[0] != QUESTION
  }

  /** No quantifier can follow a compiled character: escaping left none unescaped. */
  lemma NextStartsATerm(glob: Text)
    ensures NoQuantifierFirst(Body(glob) + [DOLLAR])
  {
    if glob != [] { BodyUnfold(glob); }
  }

  lemma StarParses(tail: Text)
    requires NoQuantifierFirst(tail)
    ensures ParseTerm([DOT, STAR] + tail) == Some((Repeat(AnyButLineTerminator, 0, None, true), tail))
  {
    var text := [DOT, STAR] + tail;
    assert text[1..] == [STAR] + tail;
    assert text[1..][1..] == tail;
  }

  lemma EscapeParses(u: CodeUnit, tail: Text)
    requires IsEscaped(u) && NoQuantifierFirst(tail)
    ensures ParseTerm([BACKSLASH, u] + tail) == Some((Once(Literal(u)), tail))
  {
    assert ([BACKSLASH, u] + tail)[2..] == tail;
  }

  lemma PlainParses(u: CodeUnit, tail: Text)
    requires !IsEscaped(u) && u != STAR && NoQuantifierFirst(tail)
    ensures ParseTerm([u] + tail) == Some((Once(Literal(u)), tail))
  {
    assert ([u] + tail)[1..] == tail;
  }

  lemma FirstTermParses(glob: Text)
    requires glob != []
    ensures Body(glob) + [DOLLAR] != [] && (Body(glob) + [DOLLAR])[0] != BAR
    ensures ParseTerm(Body(glob) + [DOLLAR]) == Some((Compile(glob)[0], Body(glob[1..]) + [DOLLAR]))
  {
    var u, tail := glob[0], Body(glob[1..]) + [DOLLAR];
    BodyUnfold(glob);
    NextStartsATerm(glob[1..]);
    if u == STAR {
      StarParses(tail);
      assert Body(glob) + [DOLLAR] == [DOT, STAR] + tail;
    } else if IsEscaped(u) {
      EscapeParses(u, tail);
      assert Body(glob) + [DOLLAR] == [BACKSLASH, u] + tail;
    } else {
      PlainParses(u, tail);
      assert Body(glob) + [DOLLAR] == [u] + tail;
    }
  }

  lemma {:induction false} BodyParses(glob: Text, done: Alternative)
    ensures ParsePattern(Body(glob) + [DOLLAR], done) == Some([done + Compile(glob) + [AtEnd]])
  {
    if glob == [] {
      assert Body(glob) + [DOLLAR] == [DOLLAR];
      assert ParsePattern([], done + [AtEnd]) == Some([done + [AtEnd]]);
      assert done + Compile(glob) + [AtEnd] == done + [AtEnd];
    } else {
      var term := Compile(glob)[0];
      FirstTermParses(glob);
      BodyParses(glob[1..], done + [term]);
      assert done + Compile(glob) + [AtEnd] == done + [term] + Compile(glob[1..]) + [AtEnd];
    }
  }

  /** The source text is a well-formed pattern, one alternative that reads the glob literally. */
  lemma SourceParses(glob: Text)
    ensures ParsePattern(WildcardSource(glob), []) == Some([[AtStart] + Compile(glob) + [AtEnd]])
  {
    var text := WildcardSource(glob);
    assert text == [CARET] + (Body(glob) + [DOLLAR]);
    assert text[1..] == Body(glob) + [DOLLAR];
    BodyParses(glob, [AtStart]);
    assert [] + [AtStart] == [AtStart];
  }

  // ---------------------------------------------------------------- the pattern matches as intended

  lemma {:induction false} StarMatches(rest: Alternative, s: Text, i: nat)
    requires i <= |s|
    ensures MatchRepeat(AnyButLineTerminator, 0, None, true, rest, s, i)
       <==> exists j | i <= j <= |s| :: OneLine(s[i..j]) && MatchTerms(rest, s, j)
    decreases |s| - i
  {
    assert s[i..i] == [];
    if i < |s| && !IsLineTerminator(s[i]) {
      StarMatches(rest, s, i + 1);
      forall j | i < j <= |s|
        ensures OneLine(s[i..j]) <==> OneLine(s[i + 1..j])
      {
        assert s[i..j] == [s[i]] + s[i + 1..j];
      }
    } else {
      forall j | i < j <= |s|
        ensures !OneLine(s[i..j])
      {
        assert s[i..j][0] == s[i];
      }
    }
  }

  /** The fills of a glob's tail extend to fills of the glob. */
  lemma ExtendFills(glob: Text, head: Text, tail: Text)
    requires glob != [] && OneLineGlobMatches(glob[1..], tail)
    requires if glob[0] == STAR then OneLine(head) else head == [glob[0]]
    ensures OneLineGlobMatches(glob, head + tail)
  {
    var fills: seq<Text> :| |fills| == Stars(glob[1..]) && Instantiate(glob[1..], fills) == tail &&
      forall k | 0 <= k < |fills| :: OneLine(fills[k]);
    var all := if glob[0] == STAR then [head] + fills else fills;
    if glob[0] == STAR { assert all[1..] == fills; }
    assert Instantiate(glob, all) == head + tail;
  }

  /** Soundness: an accepting run of the compiled terms spells out the star fills. */
  lemma {:induction false} MatchGivesFills(glob: Text, s: Text, i: nat)
    requires i <= |s| && MatchTerms(Compile(glob) + [AtEnd], s, i)
    ensures OneLineGlobMatches(glob, s[i..])
  {
    var terms := Compile(glob) + [AtEnd];
    if glob == [] {
      assert terms == [AtEnd];
      var none: seq<Text> := [];
      assert Instantiate(glob, none) == s[i..];
    } else {
      assert terms[1..] == Compile(glob[1..]) + [AtEnd];
      var j := i + 1;
      if glob[0] == STAR {
        StarMatches(terms[1..], s, i);
        j :| i <= j <= |s| && OneLine(s[i..j]) && MatchTerms(terms[1..], s, j);
      }
      MatchGivesFills(glob[1..], s, j);
      assert s[i..] == s[i..j] + s[j..];
      ExtendFills(glob, s[i..j], s[j..]);
    }
  }

  /** Completeness: every way to fill the stars within one line is found by the matcher. */
  lemma {:induction false} FillsGiveMatch(glob: Text, fills: seq<Text>, s: Text, i: nat)
    requires i <= |s| && |fills| == Stars(glob) && Instantiate(glob, fills) == s[i..]
    requires forall k | 0 <= k < |fills| :: OneLine(fills[k])
    ensures MatchTerms(Compile(glob) + [AtEnd], s, i)
  {
    var terms := Compile(glob) + [AtEnd];
    if glob == [] {
      assert terms == [AtEnd] && terms[1..] == [];
      assert |s[i..]| == 0;
    } else {
      assert terms[1..] == Compile(glob[1..]) + [AtEnd];
      var head := if glob[0] == STAR then fills[0] else [glob[0]];
      var rest := if glob[0] == STAR then fills[1..] else fills;
      var j := i + |head|;
      assert s[i..] == head + Instantiate(glob[1..], rest);
      assert s[j..] == s[i..][|head|..];
      assert s[i..j] == s[i..][..|head|] == head;
      FillsGiveMatch(glob[1..], rest, s, j);
      if glob[0] == STAR {
        StarMatches(terms[1..], s, i);
      } else {
        assert s[i] == s[i..j][0];
      }
    }
  }

  lemma NoMatchAfterStart(glob: Text, s: Text, from: nat)
    requires 0 < from <= |s|
    ensures !Test([[AtStart] + Compile(glob) + [AtEnd]], s, from)
    decreases |s| - from
  {
    if from < |s| { NoMatchAfterStart(glob, s, from + 1); }
  }

  /** For every glob and every origin: what the compiled expression accepts, exactly. */
  lemma WildcardRegExpMeaning(glob: Text, origin: Text)
    ensures var p := ParsePattern(WildcardSource(glob), []);
            p.Some? && (Test(p.value, origin, 0) <==> OneLineGlobMatches(glob, origin))
  {
    SourceParses(glob);
    var terms := [AtStart] + Compile(glob) + [AtEnd];
    var p: Pattern := [terms];
    assert terms[1..] == Compile(glob) + [AtEnd];
    assert origin[0..] == origin;
    if |origin| > 0 { NoMatchAfterStart(glob, origin, 1); }
    assert Test(p, origin, 0) <==> MatchTerms(p[0], origin, 0);
    if MatchTerms(terms[1..], origin, 0) { MatchGivesFills(glob, origin, 0); }
    if OneLineGlobMatches(glob, origin) {
      var fills: seq<Text> :| |fills| == Stars(glob) && Instantiate(glob, fills) == origin &&
        forall k | 0 <= k < |fills| :: OneLine(fills[k]);
      FillsGiveMatch(glob, fills, origin, 0);
    }
  }

  lemma {:induction false} FillsAreParts(glob: Text, fills: seq<Text>)
    requires |fills| == Stars(glob) && OneLine(Instantiate(glob, fills))
    ensures forall k | 0 <= k < |fills| :: OneLine(fills[k])
  {
    if glob != [] {
      var head := if glob[0] == STAR then fills[0] else [glob[0]];
      var rest := if glob[0] == STAR then fills[1..] else fills;
      var tail := Instantiate(glob[1..], rest);
      var whole := Instantiate(glob, fills);
      assert whole == head + tail;
      forall k | 0 <= k < |tail| ensures !IsLineTerminator(tail[k]) { assert tail[k] == whole[|head| + k]; }
      forall k | 0 <= k < |head| ensures !IsLineTerminator(head[k]) { assert head[k] == whole[k]; }
      FillsAreParts(glob[1..], rest);
      if glob[0] == STAR { assert fills == [fills[0]] + rest; }
    }
  }

  /** On an origin of one line (every HTTP origin is one) the restriction on fills says nothing. */
  lemma OneLineOriginsNeedNoRestriction(glob: Text, origin: Text)
    requires OneLine(origin)
    ensures OneLineGlobMatches(glob, origin) <==> GlobMatches(glob, origin)
  {
    if GlobMatches(glob, origin) {
      var fills: seq<Text> :| |fills| == Stars(glob) && Instantiate(glob, fills) == origin;
      FillsAreParts(glob, fills);
    }
  }

  lemma {:induction false} GlobMatchesItself(glob: Text)
    ensures GlobMatches(glob, glob)
  {
    if glob == [] {
      var none: seq<Text> := [];
      assert Instantiate(glob, none) == glob;
    } else {
      GlobMatchesItself(glob[1..]);
      var fills: seq<Text> :| |fills| == Stars(glob[1..]) && Instantiate(glob[1..], fills) == glob[1..];
      var all := if glob[0] == STAR then [[STAR]] + fills else fills;
      assert glob == [glob[0]] + glob[1..];
      if glob[0] == STAR { assert all[1..] == fills; }
      assert Instantiate(glob, all) == glob;
    }
  }

  lemma StarFree(glob: Text, fills: seq<Text>)
    requires STAR !in glob && |fills| == Stars(glob)
    ensures Instantiate(glob, fills) == glob
  {
    if glob != [] { assert glob == [glob[0]] + glob[1..]; StarFree(glob[1..], fills); }
  }

  /** Exactly which origins an allow-list entry admits, line terminators included. */
  lemma CorsOriginExact(origin: Text, allowedOrigin: Text)
    ensures MatchesCorsOrigin(origin, allowedOrigin)
       <==> allowedOrigin == origin || OneLineGlobMatches(allowedOrigin, origin)
  {
    WildcardRegExpMeaning(allowedOrigin, origin);
    if STAR !in allowedOrigin && OneLineGlobMatches(allowedOrigin, origin) {
      var fills: seq<Text> :| |fills| == Stars(allowedOrigin) && Instantiate(allowedOrigin, fills) == origin;
      StarFree(allowedOrigin, fills);
    }
  }

  /** The check is plain glob matching, for entries with and without stars. */
  lemma CorsOriginIsGlobMatching(origin: Text, allowedOrigin: Text)
    requires OneLine(origin)
    ensures MatchesCorsOrigin(origin, allowedOrigin) <==> GlobMatches(allowedOrigin, origin)
  {
    CorsOriginExact(origin, allowedOrigin);
    OneLineOriginsNeedNoRestriction(allowedOrigin, origin);
    GlobMatchesItself(allowedOrigin);
  }

  /** Why the line matters: `*` does not admit an origin that is a line feed. */
  lemma StarDoesNotCrossLines()
    ensures GlobMatches([STAR], [0x0A]) && !MatchesCorsOrigin([0x0A], [STAR])
  {
    var lf: Text := [0x0A];
    assert Instantiate([STAR], [lf]) == lf;
    CorsOriginExact(lf, [STAR]);
    if OneLineGlobMatches([STAR], lf) {
      var fills: seq<Text> :| |fills| == 1 && Instantiate([STAR], fills) == lf &&
        forall k | 0 <= k < |fills| :: OneLine(fills[k]);
      assert Instantiate([STAR], fills) == fills[0] + [];
      assert fills[0] == lf;
      assert IsLineTerminator(lf[0]);
    }
  }

  // ---------------------------------------------------------------- the allow list

  /** `local` holds the two local origins in the local and test environments and is empty otherwise. */
  predicate IsCorsOriginAllowed(origin: Option<Text>, local: seq<Text>, allowed: seq<Text>) {
    if origin.None? || origin.value == [] then true
    else if origin.value in local then true
    else exists k | 0 <= k < |allowed| :: MatchesCorsOrigin(origin.value, allowed[k])
  }

  /** A request that names a one-line origin passes exactly when it is local or some entry's glob covers it. */
  lemma AllowListExact(origin: Text, local: seq<Text>, allowed: seq<Text>)
    requires origin != [] && OneLine(origin)
    ensures IsCorsOriginAllowed(Some(origin), local, allowed)
       <==> origin in local || exists k | 0 <= k < |allowed| :: GlobMatches(allowed[k], origin)
  {
    forall k | 0 <= k < |allowed| ensures MatchesCorsOrigin(origin, allowed[k]) <==> GlobMatches(allowed[k], origin) {
      CorsOriginIsGlobMatching(origin, allowed[k]);
    }
  }

  /** No origin passes; a named one if it is local, an entry, or filled in from one without line breaks. */
  lemma AllowListForAll(origin: Option<Text>, local: seq<Text>, allowed: seq<Text>)
    ensures IsCorsOriginAllowed(origin, local, allowed) <==>
              match origin
              case None => true
              case Some(o) => o == [] || o in local || o in allowed
                              || exists k | 0 <= k < |allowed| :: OneLineGlobMatches(allowed[k], o)
  {
    if origin.Some? {
      forall k | 0 <= k < |allowed|
        ensures MatchesCorsOrigin(origin.value, allowed[k])
           <==> allowed[k] == origin.value || OneLineGlobMatches(allowed[k], origin.value)
      {
        CorsOriginExact(origin.value, allowed[k]);
      }
    }
  }

  lemma {:induction false} StarFreeCount(glob: Text)
    requires STAR !in glob
    ensures Stars(glob) == 0
  {
    if glob != [] { StarFreeCount(glob[1..]); }
  }

  lemma {:induction false} StarFreePrefix(pre: Text, rest: Text, fills: seq<Text>)
    requires STAR !in pre && |fills| == Stars(rest)
    ensures Stars(pre + rest) == Stars(rest)
    ensures Instantiate(pre + rest, fills) == pre + Instantiate(rest, fills)
  {
    if pre == [] {
      assert pre + rest == rest;
    } else {
      assert (pre + rest)[1..] == pre[1..] + rest;
      StarFreePrefix(pre[1..], rest, fills);
      assert pre == [pre[0]] + pre[1..];
    }
  }

  lemma OneStarFill(pre: Text, post: Text, fill: Text)
    requires STAR !in pre && STAR !in post
    ensures var glob := pre + ([STAR] + post);
            Stars(glob) == 1 && Instantiate(glob, [fill]) == pre + (fill + post)
  {
    var rest := [STAR] + post;
    assert rest[1..] == post && [fill][1..] == [];
    StarFreeCount(post);
    StarFree(post, []);
    StarFreePrefix(pre, rest, [fill]);
  }

  ghost predicate HasEnds(s: Text, pre: Text, post: Text) {
    |s| >= |pre| + |post| && s[..|pre|] == pre && s[|s| - |post|..] == post
  }

  lemma OneStarMatchHasEnds(pre: Text, post: Text, origin: Text)
    requires STAR !in pre && STAR !in post && GlobMatches(pre + ([STAR] + post), origin)
    ensures HasEnds(origin, pre, post)
  {
    var glob := pre + ([STAR] + post);
    var fills: seq<Text> :| |fills| == Stars(glob) && Instantiate(glob, fills) == origin;
    assert |fills| == 1 by { OneStarFill(pre, post, []); }
    OneStarFill(pre, post, fills[0]);
    assert fills == [fills[0]];
    var n := |pre| + |fills[0]|;
    assert origin == pre + (fills[0] + post);
    assert origin[..|pre|] == pre && origin[n..] == post;
  }

  lemma EndsGiveOneStarMatch(pre: Text, post: Text, origin: Text)
    requires STAR !in pre && STAR !in post && HasEnds(origin, pre, post)
    ensures GlobMatches(pre + ([STAR] + post), origin)
  {
    var n := |origin| - |post|;
    var fill := origin[|pre|..n];
    OneStarFill(pre, post, fill);
    assert origin == origin[..|pre|] + (fill + origin[n..]);
    var fills := [fill];
    assert |fills| == 1 && Instantiate(pre + ([STAR] + post), fills) == origin;
  }

  /** An entry with one star fixes both ends, without overlap, and nothing else. */
  lemma OneStarFixesBothEnds(pre: Text, post: Text, origin: Text)
    requires STAR !in pre && STAR !in post && OneLine(origin)
    ensures MatchesCorsOrigin(origin, pre + ([STAR] + post)) <==> HasEnds(origin, pre, post)
  {
    CorsOriginIsGlobMatching(origin, pre + ([STAR] + post));
    if GlobMatches(pre + ([STAR] + post), origin) { OneStarMatchHasEnds(pre, post, origin); }
    if HasEnds(origin, pre, post) { EndsGiveOneStarMatch(pre, post, origin); }
  }
}
