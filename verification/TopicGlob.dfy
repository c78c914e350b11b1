/** Topic globs compiled to regular expressions. The emitted pattern is read back by a small reader of
    the pattern grammar and matching rules of ECMA-262 (section 22.2.2, flag `i`), and compared with a
    direct matcher of globs. */
module TopicGlob {
  import opened Strings

  datatype Option<+T> = None | Some(value: T)

  datatype Error = EmptyGlob | TooLong | Unsupported

  datatype Result<+T> = Ok(value: T) | Err(error: Error)

  const MAX_GLOB_LENGTH := 128

  /** Topics are sequences of UTF-16 code units: without flag `u` a pattern matches unit by unit. */
  newtype CodeUnit = u: int | 0 <= u < 0x1_0000

  type Topic = seq<CodeUnit>

  // ---------------------------------------------------------------- validation

  predicate GlobChar(c: char) {
    || 'A' <= c <= 'Z' || 'a' <= c <= 'z' || '0' <= c <= '9'
    || c == '.' || c == '*' || c == '?' || c == '_' || c == '-'
  }

  predicate AllGlobChars(s: string) {
    forall k :: 0 <= k < |s| ==> GlobChar(s[k])
  }

  /** The length of a string in code units: characters outside the Basic Multilingual Plane take two. */
  function UnitLength(s: string): nat {
    if |s| == 0 then 0 else UnitLength(s[1..]) + (if s[0] as int < 0x1_0000 then 1 else 2)
  }

  lemma {:induction false} GlobLength(s: string)
    requires AllGlobChars(s)
    ensures UnitLength(s) == |s|
  {
    if |s| > 0 {
      assert GlobChar(s[0]);
      GlobLength(s[1..]);
    }
  }

  function Validate(glob: string): (r: Result<string>)
    ensures r.Ok? ==> 0 < |r.value| <= MAX_GLOB_LENGTH && AllGlobChars(r.value) && r.value == Trim(glob)
  {
    var normalized := Trim(glob);
    if |normalized| == 0 then Err(EmptyGlob)
    else if UnitLength(normalized) > MAX_GLOB_LENGTH then Err(TooLong)
    else if !AllGlobChars(normalized) then Err(Unsupported)
    else
      GlobLength(normalized);
      Ok(normalized)
  }

  lemma {:induction false} UnitsAreAtLeast(s: string)
    ensures UnitLength(s) >= |s|
  {
    if |s| > 0 {
      UnitsAreAtLeast(s[1..]);
    }
  }

  /** A glob is valid if and only if what is left after trimming it has 1 to 128 characters, each a letter or digit of
      ASCII, a dot, a star, a question mark, an underscore or a hyphen. Otherwise the error names what is wrong, the
      length before the characters. */
  lemma ValidateIs(glob: string)
    ensures Validate(glob).Ok? <==>
              var g := Trim(glob);
              && 1 <= |g| <= 128
              && forall k :: 0 <= k < |g| ==>
                   || 'a' <= g[k] <= 'z' || 'A' <= g[k] <= 'Z' || '0' <= g[k] <= '9'
                   || g[k] in {'.', '*', '?', '_', '-'}
    ensures Validate(glob).Ok? ==> Validate(glob).value == Trim(glob)
    ensures Validate(glob) == Err(EmptyGlob) <==> Trim(glob) == ""
    ensures Validate(glob) == Err(TooLong) <==> UnitLength(Trim(glob)) > 128
  {
    var g := Trim(glob);
    UnitsAreAtLeast(g);
    if AllGlobChars(g) {
      GlobLength(g);
    } else {
      var k :| 0 <= k < |g| && !GlobChar(g[k]);
    }
  }

  // ---------------------------------------------------------------- the compiler

  const ESCAPED := {'|', '\\', '{', '}', '(', ')', '[', ']', '^', '$', '+', '?', '.'}

  function Escape(c: char): string {
    if c in ESCAPED then ['\\', c] else [c]
  }

  function Piece(c: char): string {
    if c == '*' then ".*" else if c == '?' then "." else Escape(c)
  }

  /** The pattern emitted for the characters of a glob, between the anchors. */
  function Pieces(glob: string): string {
    if |glob| == 0 then "" else Pieces(glob[..|glob| - 1]) + Piece(glob[|glob| - 1])
  }

  function Pattern(glob: string): string {
    "^" + Pieces(glob) + "$"
  }

  method CompileTopicGlob(glob: string) returns (r: Result<string>)
    ensures r == match Validate(glob)
                 case Ok(normalized) => Ok(Pattern(normalized))
                 case Err(error) => Err(error)
  {
    var valid := Validate(glob);
    if valid.Err? {
      return Err(valid.error);
    }
    var normalized := valid.value;
    var pattern := "^";
    for i := 0 to |normalized|
      invariant pattern == "^" + Pieces(normalized[..i])
    {
      assert normalized[..i + 1][..i] == normalized[..i];
      var c := normalized[i];
      if c == '*' {
        pattern := pattern + ".*";
        continue;
      }
      if c == '?' {
        pattern := pattern + ".";
        continue;
      }
      pattern := pattern + Escape(c);
    }
    assert normalized[..|normalized|] == normalized;
    return Ok(pattern + "$");
  }

  // ---------------------------------------------------------------- reading a pattern

  datatype Atom = AnyChar | Literal(c: char)

  datatype Term = One(atom: Atom) | Star(atom: Atom)

  const SYNTAX := {'^', '$', '\\', '.', '*', '+', '?', '(', ')', '[', ']', '{', '}', '|'}

  /** An atom: the dot, an escaped syntax character, or a character that is not one. */
  function ReadAtom(s: string): Option<(Atom, string)> {
    if |s| == 0 then None
    else if s[0] == '.' then Some((AnyChar, s[1..]))
    else if s[0] == '\\' then
      if |s| > 1 && s[1] in SYNTAX then Some((Literal(s[1]), s[2..])) else None
    else if s[0] in SYNTAX then None
    else Some((Literal(s[0]), s[1..]))
  }

  /** Atoms, each with an optional greedy star, up to the final anchor. */
  function ReadTerms(s: string): Option<seq<Term>>
    decreases |s|
  {
    if s == "$" then Some([])
    else
      match ReadAtom(s)
      case None => None
      case Some((atom, rest)) =>
        if |rest| > 0 && rest[0] == '*' then
          match ReadTerms(rest[1..])
          case None => None
          case Some(terms) => Some([Star(atom)] + terms)
        else
          match ReadTerms(rest)
          case None => None
          case Some(terms) => Some([One(atom)] + terms)
  }

  function ReadPattern(s: string): Option<seq<Term>> {
    if |s| > 0 && s[0] == '^' then ReadTerms(s[1..]) else None
  }

  predicate IsLineTerminator(u: CodeUnit) {
    u == 0x0A || u == 0x0D || u == 0x2028 || u == 0x2029
  }

  /** Canonicalize under flag `i`: upper case. A unit outside ASCII never becomes an ASCII one, and
      patterns hold ASCII characters only, so other units may stand for themselves. */
  function Canonicalize(c: int): int {
    if 'a' as int <= c <= 'z' as int then c - 32 else c
  }

  predicate AtomAccepts(atom: Atom, u: CodeUnit) {
    match atom
    case AnyChar => !IsLineTerminator(u)
    case Literal(l) => Canonicalize(l as int) == Canonicalize(u as int)
  }

  /** The backtracking matcher; the end of the terms is the end anchor. */
  predicate Accepts(terms: seq<Term>, t: Topic)
    decreases |terms| + |t|
  {
    if |terms| == 0 then |t| == 0
    else
      match terms[0]
      case One(atom) => |t| > 0 && AtomAccepts(atom, t[0]) && Accepts(terms[1..], t[1..])
      case Star(atom) => Accepts(terms[1..], t) || (|t| > 0 && AtomAccepts(atom, t[0]) && Accepts(terms, t[1..]))
  }

  /** `RegExp.test` of an anchored pattern. */
  predicate Test(pattern: string, t: Topic) {
    var terms := ReadPattern(pattern);
    terms.Some? && Accepts(terms.value, t)
  }

  // ---------------------------------------------------------------- globs directly

  /** The unit is the character or its other case. */
  predicate SameLetter(c: char, u: CodeUnit) {
    || c as int == u as int
    || ('a' <= c <= 'z' && u as int == c as int - 'a' as int + 'A' as int)
    || ('A' <= c <= 'Z' && u as int == c as int - 'A' as int + 'a' as int)
  }

  predicate GlobMatches(glob: string, t: Topic)
    decreases |glob| + |t|
  {
    if |glob| == 0 then |t| == 0
    else if glob[0] == '*' then GlobMatches(glob[1..], t) || (|t| > 0 && GlobMatches(glob, t[1..]))
    else |t| > 0 && (glob[0] == '?' || SameLetter(glob[0], t[0])) && GlobMatches(glob[1..], t[1..])
  }

  /** A unit in lower case, as far as it is an ASCII letter. */
  function Lower(u: int): int {
    if 65 <= u <= 90 then u + 32 else u
  }

  /** Without wildcards a glob matches the topics that are the same, ignoring the case of ASCII letters. */
  lemma {:induction false} LiteralGlob(glob: string, t: Topic)
    requires forall k :: 0 <= k < |glob| ==> glob[k] != '*' && glob[k] != '?'
    ensures GlobMatches(glob, t) <==> |t| == |glob| && forall k :: 0 <= k < |t| ==> Lower(glob[k] as int) == Lower(t[k] as int)
    decreases |glob|
  {
    if |glob| > 0 && |t| > 0 {
      assert SameLetter(glob[0], t[0]) <==> Lower(glob[0] as int) == Lower(t[0] as int);
      LiteralGlob(glob[1..], t[1..]);
      assert glob == [glob[0]] + glob[1..] && t == [t[0]] + t[1..];
      assert forall k :: 0 <= k < |t[1..]| ==> t[1..][k] == t[k + 1];
      assert forall k :: 1 <= k < |t| ==> t[k] == t[1..][k - 1];
    }
  }

  predicate MatchesSuffix(glob: string, t: Topic) {
    exists k :: 0 <= k <= |t| && GlobMatches(glob, t[k..])
  }

  lemma SuffixStep(glob: string, t: Topic)
    ensures MatchesSuffix(glob, t) <==> GlobMatches(glob, t) || (|t| > 0 && MatchesSuffix(glob, t[1..]))
  {
    hide GlobMatches;
    assert t[0..] == t;
    assert |t| > 0 ==> forall k :: 0 <= k <= |t[1..]| ==> t[1..][k..] == t[k + 1..];
    if k :| 1 <= k <= |t| && GlobMatches(glob, t[k..]) {
      assert t[1..][k - 1..] == t[k..];
    }
  }

  lemma {:induction false} StarMatchesSuffix(glob: string, t: Topic)
    ensures GlobMatches("*" + glob, t) <==> MatchesSuffix(glob, t)
    decreases |t|
  {
    assert ("*" + glob)[1..] == glob && ("*" + glob)[0] == '*';
    hide MatchesSuffix;
    SuffixStep(glob, t);
    if |t| > 0 {
      StarMatchesSuffix(glob, t[1..]);
    }
  }

  /** A star stands for any stretch of the topic, a question mark for any one unit. */
  lemma Wildcards(glob: string, t: Topic)
    ensures GlobMatches("*" + glob, t) <==> exists k :: 0 <= k <= |t| && GlobMatches(glob, t[k..])
    ensures GlobMatches("?" + glob, t) <==> |t| > 0 && GlobMatches(glob, t[1..])
  {
    StarMatchesSuffix(glob, t);
    assert ("?" + glob)[1..] == glob;
  }

  predicate OneLine(t: Topic) {
    forall k :: 0 <= k < |t| ==> !IsLineTerminator(t[k])
  }

  // ---------------------------------------------------------------- the compiler is correct

  function TermOf(c: char): Term {
    if c == '*' then Star(AnyChar) else if c == '?' then One(AnyChar) else One(Literal(c))
  }

  function TermsOf(glob: string): seq<Term> {
    if |glob| == 0 then [] else [TermOf(glob[0])] + TermsOf(glob[1..])
  }

  lemma {:induction false} PiecesFromFront(glob: string)
    requires |glob| > 0
    ensures Pieces(glob) == Piece(glob[0]) + Pieces(glob[1..])
  {
    if |glob| > 1 {
      var front := glob[..|glob| - 1];
      PiecesFromFront(front);
      assert front[1..] == glob[1..][..|glob| - 2];
    } else {
      assert glob[..0] == "" && glob[1..] == "";
    }
  }

  lemma PieceIsNoStar(glob: string)
    requires AllGlobChars(glob)
    ensures var s := Pieces(glob) + "$"; |s| > 0 && s[0] != '*'
  {
    if |glob| > 0 {
      PiecesFromFront(glob);
    }
  }

  lemma AtomReadsBack(c: char, rest: string)
    requires GlobChar(c) && |rest| > 0
    ensures var s := Piece(c) + rest;
            && s != "$"
            && ReadAtom(s) == Some(if c == '*' then (AnyChar, "*" + rest)
                                   else if c == '?' then (AnyChar, rest) else (Literal(c), rest))
  {
    var s := Piece(c) + rest;
    if c == '*' {
      assert s[1..] == "*" + rest;
    } else if c == '.' {
      assert s[2..] == rest;
    } else {
      assert s[1..] == rest;
    }
  }

  lemma TermReadsBack(c: char, rest: string, terms: seq<Term>)
    requires GlobChar(c) && |rest| > 0 && rest[0] != '*' && ReadTerms(rest) == Some(terms)
    ensures ReadTerms(Piece(c) + rest) == Some([TermOf(c)] + terms)
  {
    AtomReadsBack(c, rest);
    if c == '*' {
      assert ("*" + rest)[1..] == rest;
    }
  }

  /** The reader gets back from the pattern exactly one term per character of the glob. */
  lemma {:induction false} PatternReadsBack(glob: string)
    requires AllGlobChars(glob)
    ensures ReadTerms(Pieces(glob) + "$") == Some(TermsOf(glob))
    decreases |glob|
  {
    if |glob| == 0 {
      assert Pieces(glob) + "$" == "$";
    } else {
      var rest := Pieces(glob[1..]) + "$";
      PiecesFromFront(glob);
      PatternReadsBack(glob[1..]);
      PieceIsNoStar(glob[1..]);
      TermReadsBack(glob[0], rest, TermsOf(glob[1..]));
      assert Pieces(glob) + "$" == Piece(glob[0]) + rest;
    }
  }

  lemma {:induction false} TermsMatchGlob(glob: string, t: Topic)
    requires AllGlobChars(glob)
    ensures Accepts(TermsOf(glob), t) <==> OneLine(t) && GlobMatches(glob, t)
    decreases |glob| + |t|
  {
    if |glob| > 0 {
      var terms := TermsOf(glob);
      assert terms[0] == TermOf(glob[0]) && terms[1..] == TermsOf(glob[1..]);
      assert GlobChar(glob[0]);
      if glob[0] == '*' {
        TermsMatchGlob(glob[1..], t);
        if |t| > 0 {
          TermsMatchGlob(glob, t[1..]);
          assert t == [t[0]] + t[1..];
        }
      } else if |t| > 0 {
        TermsMatchGlob(glob[1..], t[1..]);
        assert t == [t[0]] + t[1..];
        assert Canonicalize(glob[0] as int) == Canonicalize(t[0] as int) <==> SameLetter(glob[0], t[0]);
      }
    }
  }

  lemma PatternIsCorrect(g: string, topic: Topic)
    requires AllGlobChars(g)
    ensures Test(Pattern(g), topic) <==> OneLine(topic) && GlobMatches(g, topic)
  {
    PatternReadsBack(g);
    assert Pattern(g)[1..] == Pieces(g) + "$";
    TermsMatchGlob(g, topic);
  }

  /** Glob compiler correctness: for every valid glob, the emitted pattern accepts exactly the topics
      without a line terminator that the glob matches, ignoring case. */
  lemma CompiledGlobIsCorrect(glob: string, topic: Topic)
    requires Validate(glob).Ok?
    ensures Test(Pattern(Validate(glob).value), topic) <==> OneLine(topic) && GlobMatches(Trim(glob), topic)
  {
    PatternIsCorrect(Validate(glob).value, topic);
  }

  // ---------------------------------------------------------------- sets of globs

  /** The validated globs, each once, in the order of their first occurrence; the first invalid one fails. */
  function Normalized(globs: seq<string>): Result<seq<string>> {
    if |globs| == 0 then Ok([])
    else
      match Normalized(globs[..|globs| - 1])
      case Err(error) => Err(error)
      case Ok(front) =>
        match Validate(globs[|globs| - 1])
        case Err(error) => Err(error)
        case Ok(glob) => if glob in front then Ok(front) else Ok(front + [glob])
  }

  method NormalizeTopicGlobs(globs: seq<string>) returns (r: Result<seq<string>>)
    ensures r == Normalized(globs)
  {
    var deduped := [];
    var seen := {};
    for i := 0 to |globs|
      invariant Normalized(globs[..i]) == Ok(deduped)
      invariant forall g :: g in seen <==> g in deduped
    {
      assert globs[..i + 1][..i] == globs[..i];
      var valid := Validate(globs[i]);
      if valid.Err? {
        NormalizedFails(globs, i);
        return Err(valid.error);
      }
      if valid.value !in seen {
        seen := seen + {valid.value};
        deduped := deduped + [valid.value];
      }
    }
    assert globs[..|globs|] == globs;
    return Ok(deduped);
  }

  lemma {:induction false} NormalizedFails(globs: seq<string>, i: nat)
    requires i < |globs| && Normalized(globs[..i]).Ok? && Validate(globs[i]).Err?
    ensures Normalized(globs) == Err(Validate(globs[i]).error)
  {
    if i < |globs| - 1 {
      assert globs[..|globs| - 1][..i] == globs[..i];
      NormalizedFails(globs[..|globs| - 1], i);
    }
  }

  lemma {:induction false} NormalizedIs(globs: seq<string>)
    ensures Normalized(globs).Ok? <==> forall g :: g in globs ==> Validate(g).Ok?
    ensures Normalized(globs).Ok? ==>
              var r := Normalized(globs).value;
              && (forall i, j :: 0 <= i < j < |r| ==> r[i] != r[j])
              && (forall g :: g in r <==> exists glob :: glob in globs && Trim(glob) == g)
              && (forall g :: g in r ==> AllGlobChars(g))
  {
    if |globs| > 0 {
      var front, last := globs[..|globs| - 1], globs[|globs| - 1];
      NormalizedIs(front);
      assert globs == front + [last];
      assert last in globs;
    }
  }

  /** The normalised globs come in the order in which they first occur. */
  lemma {:induction false} NormalizedOrder(globs: seq<string>, k: nat)
    requires k <= |globs| && Normalized(globs).Ok?
    ensures Normalized(globs[..k]).Ok? && Normalized(globs[..k]).value <= Normalized(globs).value
    ensures k < |globs| ==> Trim(globs[k]) in Normalized(globs[..k]).value
                            || Normalized(globs[..k]).value + [Trim(globs[k])] <= Normalized(globs).value
  {
    if k == |globs| {
      assert globs[..k] == globs;
    } else {
      var front := globs[..|globs| - 1];
      assert front[..k] == globs[..k];
      NormalizedOrder(front, k);
      ValidateIs(globs[|globs| - 1]);
      if k == |front| {
        assert front == globs[..k];
      }
    }
  }

  /** The globs a matcher set is built from: those given, or everything when none are. */
  function Resolved(globs: seq<string>): Result<seq<string>> {
    match Normalized(globs)
    case Err(error) => Err(error)
    case Ok(normalized) => Ok(if |normalized| > 0 then normalized else ["*"])
  }

  predicate MatchesAny(globs: seq<string>, topic: Topic) {
    exists g :: g in globs && Test(Pattern(g), topic)
  }

  lemma {:induction false} StarMatchesAll(t: Topic)
    ensures GlobMatches("*", t)
  {
    assert "*"[1..] == "";
    if |t| > 0 {
      StarMatchesAll(t[1..]);
    }
  }

  /** A matcher set accepts the union of its globs on one-line topics; without globs it accepts them all. */
  lemma MatcherSetIsUnion(globs: seq<string>, topic: Topic)
    requires Resolved(globs).Ok?
    ensures MatchesAny(Resolved(globs).value, topic)
            <==> OneLine(topic) && (|globs| == 0 || exists glob :: glob in globs && GlobMatches(Trim(glob), topic))
  {
    NormalizedIs(globs);
    var normalized, resolved := Normalized(globs).value, Resolved(globs).value;
    forall g | g in resolved ensures Test(Pattern(g), topic) <==> OneLine(topic) && GlobMatches(g, topic) {
      PatternIsCorrect(g, topic);
    }
    if |globs| == 0 {
      StarMatchesAll(topic);
      assert "*" in resolved;
    } else {
      assert globs[0] in globs && Trim(globs[0]) in normalized;
      assert forall glob :: glob in globs ==> Trim(glob) in resolved;
    }
  }
}
