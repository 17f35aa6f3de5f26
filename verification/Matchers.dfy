/**
 The fixed patterns that `stratum.cpp` and `fake_pool.cpp` search for in a line, as
 matchers: the leftmost position at which a pattern fits.  None of the patterns can fit
 one position in two ways, so no backtracking is involved.
 */
module Matchers {
  import opened JsonGrammar

  predicate IsWhite(c: char) { c == ' ' || '\t' <= c <= '\r' }

  function SkipWhite(s: string): string {
    if s != [] && IsWhite(s[0]) then SkipWhite(s[1..]) else s
  }

  function Lower(c: char): char { if 'A' <= c <= 'Z' then (c as int + 32) as char else c }

  /** `w` stands at the front of `s`; with `fold`, in any mixture of cases. */
  predicate Starts(s: string, w: string, fold: bool) {
    |w| <= |s| && forall i | 0 <= i < |w| :: (if fold then Lower(s[i]) else s[i]) == w[i]
  }

  /** One character with any white space around it. */
  function Token(s: string, c: char): Option<string> {
    var t := SkipWhite(s);
    if t != [] && t[0] == c then Some(SkipWhite(t[1..])) else None
  }

  /** What follows a quoted word and a colon at the front of `s`. */
  function AfterKey(s: string, word: string, fold: bool): Option<string> {
    if Starts(s, ['"'] + word + ['"'], fold) then Token(s[|word| + 2..], ':') else None
  }

  function FindFirst<T>(s: string, f: string -> Option<T>): Option<T> {
    if s == [] || f(s).Some? then f(s) else FindFirst(s[1..], f)
  }

  /** `std::string::find`. */
  predicate Contains(s: string, w: string) {
    exists i | 0 <= i <= |s| :: Starts(s[i..], w, false)
  }

  // ----- the patterns -----

  function IdHere(s: string): Option<string> {
    match AfterKey(s, "id", false)
    case None => None
    case Some(r) => if DigitRun(r) > 0 then Some(r[..DigitRun(r)]) else None
  }

  /** `parse_message_id`: a number beyond 64 bits is no identifier. */
  function ParseMessageId(line: string): Option<nat> {
    match FindFirst(line, IdHere)
    case None => None
    case Some(d) => if Digits(d) && DecimalValue(d) <= MAX_NUMBER then Some(DecimalValue(d)) else None
  }

  /** The pool's `parse_id` falls back to 0. */
  function ParseId(line: string): nat {
    match ParseMessageId(line)
    case None => 0
    case Some(id) => id
  }

  /** `true` or `false` in any mixture of cases, of which only two spellings are true. */
  function TruthHere(s: string): Option<bool> {
    if Starts(s, "true", true) then Some(s[..4] == "true" || s[..4] == "TRUE")
    else if Starts(s, "false", true) then Some(false)
    else None
  }

  function ResultHere(s: string): Option<bool> {
    match AfterKey(s, "result", true)
    case None => None
    case Some(r) => TruthHere(r)
  }

  function ParseBoolResult(line: string): Option<bool> { FindFirst(line, ResultHere) }

  predicate ErrorHere(s: string) {
    var r := AfterKey(s, "error", true);
    r.Some? && Starts(r.value, "null", true)
  }

  predicate ParseErrorIsNull(line: string) { exists i | 0 <= i <= |line| :: ErrorHere(line[i..]) }

  datatype Job = Job(id: string, prefix: string, difficulty: nat, clean: bool)

  predicate NotifyHere(s: string) {
    var r := AfterKey(s, "method", false);
    r.Some? && Starts(r.value, "\"mining.notify\"", false)
  }

  predicate IsNotify(line: string) { exists i | 0 <= i <= |line| :: NotifyHere(line[i..]) }

  function UntilQuote(s: string): (n: nat)
    ensures n <= |s|
  {
    if s == [] || s[0] == '"' then 0 else 1 + UntilQuote(s[1..])
  }

  /** A quoted text without escapes and the comma after it. */
  function QuotedText(s: string): Option<(string, string)> {
    if s == [] || s[0] != '"' then None
    else
      var n := 1 + UntilQuote(s[1..]);
      if n == |s| then None
      else match Token(s[n + 1..], ',')
        case None => None
        case Some(r) => Some((s[1..n], r))
  }

  /** `parse_u32` with 20 to fall back on. */
  function Difficulty(digits: string): nat {
    if Digits(digits) && DecimalValue(digits) < 0x1_0000_0000 then DecimalValue(digits) else 20
  }

  function DifficultyAndClean(s: string): Option<(nat, bool)> {
    var n := DigitRun(s);
    if n == 0 then None
    else match Token(s[n..], ',')
      case None => None
      case Some(r) =>
        match TruthHere(r)
        case None => None
        case Some(clean) => Some((Difficulty(s[..n]), clean))
  }

  function JobText(s: string): Option<Job> {
    match QuotedText(s)
    case None => None
    case Some((id, r)) =>
      if id == [] then None
      else match QuotedText(r)
        case None => None
        case Some((prefix, rest)) =>
          match DifficultyAndClean(rest)
          case None => None
          case Some((difficulty, clean)) => Some(Job(id, prefix, difficulty, clean))
  }

  function JobHere(s: string): Option<Job> {
    match AfterKey(s, "params", true)
    case None => None
    case Some(r) =>
      match Token(r, '[')
      case None => None
      case Some(rest) => JobText(rest)
  }

  function ParseNotify(line: string): Option<Job> {
    if IsNotify(line) then FindFirst(line, JobHere) else None
  }

  // ----- where a key can stand -----

  /** No `a` is followed by a `b`, in either case. */
  predicate NoPair(s: string, a: char, b: char) {
    forall i | 0 <= i < |s| - 1 :: s[i] == a ==> Lower(s[i + 1]) != b
  }

  lemma JoinPairs(s: string, t: string, a: char, b: char)
    requires NoPair(s, a, b) && NoPair(t, a, b)
    requires s != [] && t != [] ==> s[|s| - 1] != a || Lower(t[0]) != b
    ensures NoPair(s + t, a, b)
  {
  }

  lemma NoKey(s: string, word: string, fold: bool)
    requires word != []
    requires |s| < 2 || s[0] != '"' || Lower(s[1]) != Lower(word[0])
    ensures AfterKey(s, word, fold) == None
  {
    assert (['"'] + word + ['"'])[0] == '"' && (['"'] + word + ['"'])[1] == word[0];
  }

  /** A key after whose opening quotation mark nothing like it starts stands only there. */
  lemma OnlyKey(before: string, after: string, word: string, fold: bool)
    requires word != [] && word[0] == Lower(word[0]) != '"'
    requires NoPair(before, '"', word[0]) && NoPair(after, '"', word[0])
    ensures var s := before + (['"'] + after);
            forall i | 0 <= i <= |s| && i != |before| :: AfterKey(s[i..], word, fold) == None
  {
    var s := before + (['"'] + after);
    forall i | 0 <= i <= |s| && i != |before| ensures AfterKey(s[i..], word, fold) == None {
      var t := s[i..];
      if |t| >= 2 && i < |before| {
        assert t[0] == before[i];
        assert i + 1 < |before| ==> t[1] == before[i + 1];
      } else if |t| >= 2 {
        assert t[0] == after[i - |before| - 1] && t[1] == after[i - |before|];
      }
      NoKey(t, word, fold);
    }
  }

  lemma KeyHere(word: string, rest: string, fold: bool)
    requires fold ==> forall i | 0 <= i < |word| :: Lower(word[i]) == word[i]
    requires rest != [] && !IsWhite(rest[0])
    ensures AfterKey(['"'] + (word + (['"', ':'] + rest)), word, fold) == Some(rest)
  {
    var s := ['"'] + (word + (['"', ':'] + rest));
    var quoted := ['"'] + word + ['"'];
    forall i | 0 <= i < |quoted| ensures (if fold then Lower(s[i]) else s[i]) == quoted[i] {
      assert s[i] == quoted[i];
    }
    assert s[|word| + 2..] == [':'] + rest;
    assert ([':'] + rest)[1..] == rest;
  }

  /** A pattern that fits at one position only is found from every position up to it. */
  lemma {:induction false} FindOnly<T>(s: string, f: string -> Option<T>, m: nat, k: nat)
    requires m < |s| && k <= |s|
    requires forall i | 0 <= i <= |s| && i != m :: f(s[i..]) == None
    ensures FindFirst(s[k..], f) == if k <= m then f(s[m..]) else None
    decreases |s| - k
  {
    if k < |s| && f(s[k..]) == None {
      assert s[k..][1..] == s[k + 1..];
      FindOnly(s, f, m, k + 1);
    }
  }

  lemma {:induction false} FindNone<T>(s: string, f: string -> Option<T>, k: nat)
    requires k <= |s|
    requires forall i | 0 <= i <= |s| :: f(s[i..]) == None
    ensures FindFirst(s[k..], f) == None
    decreases |s| - k
  {
    if k < |s| {
      assert s[k..][1..] == s[k + 1..];
      FindNone(s, f, k + 1);
    }
  }

  /** The leftmost position at which a pattern fits is the one that counts. */
  lemma {:induction false} FindLeftmost<T>(s: string, f: string -> Option<T>, m: nat, k: nat)
    requires k <= m <= |s| && f(s[m..]).Some?
    requires forall i | 0 <= i < m :: f(s[i..]) == None
    ensures FindFirst(s[k..], f) == f(s[m..])
    decreases m - k
  {
    if k < m {
      assert s[k..][1..] == s[k + 1..];
      FindLeftmost(s, f, m, k + 1);
    }
  }

  // ----- spacing and case -----

  lemma CharacterCodes(c: char)
    ensures IsWhite(c) <==> c as int == 32 || 9 <= c as int <= 13
    ensures Lower(c) as int == if 65 <= c as int <= 90 then c as int + 32 else c as int
  {
  }

  predicate Whites(s: string) { forall c | c in s :: IsWhite(c) }

  lemma {:induction false} SkipWhites(space: string, rest: string)
    requires Whites(space) && (rest == [] || !IsWhite(rest[0]))
    ensures SkipWhite(space + rest) == rest
  {
    if space == [] {
      assert space + rest == rest;
    } else {
      assert (space + rest)[0] == space[0] && (space + rest)[1..] == space[1..] + rest;
      SkipWhites(space[1..], rest);
    }
  }

  /** White space may stand on both sides of the colon. */
  lemma {:induction false} KeyWithSpace(word: string, before: string, after: string, rest: string)
    requires Whites(before) && Whites(after) && (rest == [] || !IsWhite(rest[0]))
    ensures AfterKey((['"'] + word + ['"']) + (before + ([':'] + (after + rest))), word, false) == Some(rest)
  {
    var quoted, tail := ['"'] + word + ['"'], before + ([':'] + (after + rest));
    var s := quoted + tail;
    assert s[|word| + 2..] == tail;
    SkipWhites(before, [':'] + (after + rest));
    assert ([':'] + (after + rest))[1..] == after + rest;
    SkipWhites(after, rest);
    assert Starts(s, quoted, false);
  }

  /** Four letters in any case are read as a truth value, but only two spellings are true. */
  lemma TrueSpellings()
    ensures TruthHere("true") == TruthHere("TRUE") == Some(true)
    ensures TruthHere("True") == Some(false)
  {
    assert "true"[..4] == "true" && "TRUE"[..4] == "TRUE" && "True"[..4] == "True";
    assert "True"[1] == 'r';
  }

  lemma FalseSpellings()
    ensures TruthHere("false") == TruthHere("FALSE") == Some(false)
    ensures TruthHere("null") == TruthHere("") == None
  {
    assert "false"[0] == 'f' && "FALSE"[0] == 'F' && "null"[0] == 'n';
    assert Starts("false", "false", true) && Starts("FALSE", "false", true);
  }

  /** `std::string::find` looks for the very characters. */
  lemma {:induction false} ContainsMeans(s: string, w: string)
    ensures Contains(s, w) <==> exists i: nat :: i <= |s| && w <= s[i..]
  {
    forall i: nat | i <= |s| ensures Starts(s[i..], w, false) <==> w <= s[i..] { }
  }

  /** The keys of results, errors and parameters are found in any case, those of identifiers and
      methods only as they are. */
  lemma {:induction false} KeyCase(rest: string)
    requires rest != [] && !IsWhite(rest[0])
    ensures AfterKey("\"Result\":" + rest, "result", true) == Some(rest)
    ensures AfterKey("\"ERROR\":" + rest, "error", true) == Some(rest)
    ensures IdHere("\"ID\":" + rest) == None
    ensures !NotifyHere("\"Method\":" + rest)
  {
    FoldedKey("\"Result\"", "result", rest);
    FoldedKey("\"ERROR\"", "error", rest);
    assert ("\"ID\":" + rest)[1] == 'I' && (['"'] + "id" + ['"'])[1] == 'i';
    assert ("\"Method\":" + rest)[1] == 'M' && (['"'] + "method" + ['"'])[1] == 'm';
  }

  lemma {:induction false} FoldedKey(quoted: string, word: string, rest: string)
    requires |quoted| == |word| + 2 && Starts(quoted, ['"'] + word + ['"'], true)
    requires rest != [] && !IsWhite(rest[0])
    ensures AfterKey(quoted + ([':'] + rest), word, true) == Some(rest)
    ensures quoted + ([':'] + rest) == (quoted + [':']) + rest
  {
    var s := quoted + ([':'] + rest);
    assert forall i | 0 <= i < |quoted| :: s[i] == quoted[i];
    assert s[|word| + 2..] == [':'] + rest && ([':'] + rest)[1..] == rest;
  }
}
