/**
 * Hand-written scanners with the matching behaviour of the regular
 * expressions the server compiles: the label pattern, the local-variable and
 * global-variable patterns that `finditer` runs over the code part of a line,
 * and the whole-word patterns used to find references.
 */
module Scanner {
  import opened Common
  import opened Text

  /** `[A-Za-z][A-Za-z0-9]*` */
  predicate IsIdentifier(s: string)
  {
    |s| > 0 && IsLetter(s[0]) && forall k :: 1 <= k < |s| ==> IsAlnum(s[k])
  }

  /** `%?[A-Za-z][A-Za-z0-9]*`, the shape of label names and global names. */
  predicate IsName(s: string)
  {
    IsIdentifier(s) || (|s| > 1 && s[0] == '%' && IsIdentifier(s[1..]))
  }

  /** End of the greedy run `[A-Za-z0-9]*` that starts at `i`. */
  function AlnumEnd(s: string, i: nat): (j: nat)
    requires i <= |s|
    ensures i <= j <= |s|
    ensures forall k :: i <= k < j ==> IsAlnum(s[k])
    ensures j == |s| || !IsAlnum(s[j])
    decreases |s| - i
  {
    if i < |s| && IsAlnum(s[i]) then AlnumEnd(s, i + 1) else i
  }

  /** Position of the first `c` in `s`. */
  function IndexOf(s: string, c: char): (i: nat)
    requires c in s
    ensures i < |s| && s[i] == c && c !in s[..i]
  {
    if s[0] == c then 0
    else
      assert c in s[1..] by { assert s == [s[0]] + s[1..]; }
      var j := IndexOf(s[1..], c);
      assert s[..j + 1] == [s[0]] + s[1..][..j];
      1 + j
  }

  // ---------------------------------------------------------------------
  // Comments
  // ---------------------------------------------------------------------

  /** The code part of a line: the text before its first `;`, or the whole line when it has none. */
  function CodePart(line: string): (code: string)
    ensures ';' !in code
    ensures |code| <= |line| && code == line[..|code|]
    ensures |code| < |line| ==> line[|code|] == ';'
  {
    if ';' in line then
      JoinSplit(line, ';');
      Split(line, ';')[0]
    else line
  }

  // ---------------------------------------------------------------------
  // Labels: ^(%?[A-Za-z][A-Za-z0-9]*)(?:\(([^)]*)\))?
  // ---------------------------------------------------------------------

  datatype LabelMatch = LabelMatch(name: string, params: Option<seq<string>>)

  /** `[p.strip() for p in parts]` */
  function StripEach(parts: seq<string>): (r: seq<string>)
    ensures |r| == |parts|
    ensures forall i :: 0 <= i < |r| ==> r[i] == Strip(parts[i])
  {
    seq(|parts|, i requires 0 <= i < |parts| => Strip(parts[i]))
  }

  /**
   * The optional group `(?:\(([^)]*)\))?` tried at `e`, then `if params_str:`:
   * the text up to the first `)`, split on `,` and stripped, or `None` when the
   * group does not match or captures the empty string.
   */
  function ParamList(line: string, e: nat): Option<seq<string>>
    requires e <= |line|
  {
    if e < |line| && line[e] == '(' && ')' in line[e + 1..] then
      var inner := line[e + 1..e + 1 + IndexOf(line[e + 1..], ')')];
      if inner == "" then None else Some(StripEach(Split(inner, ',')))
    else None
  }

  /** `label_pattern.match(line)`: the label name and its parameter list, if the line starts with a name. */
  function MatchLabel(line: string): (m: Option<LabelMatch>)
    ensures m.Some? ==> |m.value.name| <= |line| && IsName(m.value.name) && m.value.name == line[..|m.value.name|]
    ensures m.Some? ==> |m.value.name| == |line| || !IsAlnum(line[|m.value.name|])
    ensures m.None? ==> forall n :: 0 < n <= |line| ==> !IsName(line[..n])
  {
    var p := if |line| > 1 && line[0] == '%' && IsLetter(line[1]) then 1 else 0;
    if p < |line| && IsLetter(line[p]) then
      var e := AlnumEnd(line, p + 1);
      assert p == 1 ==> line[..e][1..] == line[1..e];
      Some(LabelMatch(line[..e], ParamList(line, e)))
    else
      assert forall n :: 0 < n <= |line| ==> line[..n][0] == line[0];
      assert forall n :: 1 < n <= |line| ==> line[..n][1..][0] == line[1];
      None
  }

  // ---------------------------------------------------------------------
  // Local variables: (?<![$^%])(?<![A-Za-z])([A-Za-z][A-Za-z0-9]*)\b
  // ---------------------------------------------------------------------

  datatype Span = Span(start: nat, end: nat)

  /** The local-variable pattern matches `code[i..e]`. */
  ghost predicate LocalToken(code: string, i: nat, e: nat)
  {
    && i < e <= |code|
    && (i == 0 || (!IsLetter(code[i - 1]) && code[i - 1] !in "$^%"))
    && IsIdentifier(code[i..e])
    && (e == |code| || !IsWordChar(code[e]))
  }

  /** The local-variable pattern tried at `i`: the end of its match, if it has one. */
  function LocalMatchAt(code: string, i: nat): (r: Option<nat>)
    requires i <= |code|
    ensures r.Some? ==> LocalToken(code, i, r.value)
    ensures r.None? ==> forall e :: !LocalToken(code, i, e)
  {
    if i < |code| && IsLetter(code[i]) && (i == 0 || (!IsLetter(code[i - 1]) && code[i - 1] !in "$^%")) then
      var e := AlnumEnd(code, i + 1);
      if e == |code| || !IsWordChar(code[e]) then Some(e)
      else
        assert forall e' :: e < e' <= |code| ==> code[i..e'][e - i] == code[e] && !IsAlnum(code[e]);
        assert forall e' :: i < e' < e ==> IsWordChar(code[e']);
        None
    else
      assert forall e :: i < e <= |code| ==> code[i..e][0] == code[i];
      None
  }

  /** `var_pattern.finditer(code)` from position `i`: the spans of the matches, left to right. */
  function LocalScan(code: string, i: nat): (spans: seq<Span>)
    requires i <= |code|
    ensures forall k :: 0 <= k < |spans| ==> i <= spans[k].start < spans[k].end <= |code|
    decreases |code| - i
  {
    if i == |code| then []
    else match LocalMatchAt(code, i)
      case Some(e) => [Span(i, e)] + LocalScan(code, e)
      case None => LocalScan(code, i + 1)
  }

  /** Every span yielded is a match of the pattern. */
  lemma {:induction false} LocalScanSound(code: string, i: nat)
    requires i <= |code|
    ensures forall k :: 0 <= k < |LocalScan(code, i)| ==>
      LocalToken(code, LocalScan(code, i)[k].start, LocalScan(code, i)[k].end)
    decreases |code| - i
  {
    if i < |code| {
      var spans := LocalScan(code, i);
      match LocalMatchAt(code, i)
      case Some(e) =>
        var rest := LocalScan(code, e);
        LocalScanSound(code, e);
        assert spans == [Span(i, e)] + rest;
        forall k | 0 <= k < |spans| ensures LocalToken(code, spans[k].start, spans[k].end) {
          if k > 0 { assert spans[k] == rest[k - 1]; }
        }
      case None =>
        LocalScanSound(code, i + 1);
        assert spans == LocalScan(code, i + 1);
    }
  }

  /** The matches come left to right and do not overlap: each starts where or after the previous one ends. */
  lemma {:induction false} LocalScanOrdered(code: string, i: nat)
    requires i <= |code|
    ensures Disjoint(LocalScan(code, i))
    decreases |code| - i
  {
    if i < |code| {
      var m := LocalMatchAt(code, i);
      if m.Some? {
        var e := m.value;
        LocalScanOrdered(code, e);
        var rest := LocalScan(code, e);
        var spans := [Span(i, e)] + rest;
        assert LocalScan(code, i) == spans;
        forall k, l | 0 <= k < l < |spans| ensures spans[k].end <= spans[l].start {
          assert spans[l] == rest[l - 1];
          assert e <= rest[l - 1].start;
          if k > 0 { assert spans[k] == rest[k - 1]; }
        }
      } else {
        LocalScanOrdered(code, i + 1);
        assert LocalScan(code, i) == LocalScan(code, i + 1);
      }
    }
  }


  /** Each span ends where or before every later span starts. */
  predicate Disjoint(spans: seq<Span>)
  {
    forall k, l :: 0 <= k < l < |spans| ==> spans[k].end <= spans[l].start
  }

  /** Some span of `spans` contains position `p`. */
  predicate Covers(spans: seq<Span>, p: nat)
  {
    |spans| > 0 && (spans[0].start <= p < spans[0].end || Covers(spans[1..], p))
  }

  /** A match is skipped only when it starts inside an earlier match. */
  lemma {:induction false} LocalScanCovers(code: string, i: nat, p: nat)
    requires i <= p <= |code|
    requires LocalMatchAt(code, p).Some?
    ensures Covers(LocalScan(code, i), p)
    decreases |code| - i
  {
    if i < |code| {
      match LocalMatchAt(code, i)
      case Some(e) =>
        if p >= e {
          LocalScanCovers(code, e, p);
          assert LocalScan(code, i)[1..] == LocalScan(code, e);
        }
      case None =>
        LocalScanCovers(code, i + 1, p);
    }
  }

  /** The names `finditer` yields for the local-variable pattern. */
  function LocalNames(code: string): (names: seq<string>)
    ensures forall k :: 0 <= k < |names| ==> IsIdentifier(names[k])
  {
    LocalScanSound(code, 0);
    var spans := LocalScan(code, 0);
    seq(|spans|, k requires 0 <= k < |spans| => code[spans[k].start..spans[k].end])
  }

  // ---------------------------------------------------------------------
  // Global variables: \^(%?[A-Za-z][A-Za-z0-9]*)
  // ---------------------------------------------------------------------

  /** The global pattern matches `code[i..e]`, the name taking every alphanumeric that follows. */
  ghost predicate GlobalToken(code: string, i: nat, e: nat)
  {
    && i + 1 < e <= |code|
    && code[i] == '^'
    && IsName(code[i + 1..e])
    && (e == |code| || !IsAlnum(code[e]))
  }

  /** The global pattern tried at `i`: the end of its match, if it has one. */
  function GlobalMatchAt(code: string, i: nat): (r: Option<nat>)
    requires i <= |code|
    ensures r.Some? ==> GlobalToken(code, i, r.value)
    ensures r.None? ==> forall e :: !GlobalToken(code, i, e)
  {
    if i < |code| && code[i] == '^' then
      var p := if i + 2 < |code| && code[i + 1] == '%' && IsLetter(code[i + 2]) then i + 2 else i + 1;
      if p < |code| && IsLetter(code[p]) then
        var e := AlnumEnd(code, p + 1);
        assert p == i + 2 ==> code[i + 1..e][1..] == code[i + 2..e];
        Some(e)
      else
        var j := i + 1;
        forall e | j < e <= |code| ensures !IsName(code[j..e]) {
          assert code[j..e][0] == code[j];
          if j + 1 < e { assert code[j..e][1..][0] == code[j + 1]; }
        }
        None
    else None
  }

  /** `global_pattern.finditer(code)` from position `i`. */
  function GlobalScan(code: string, i: nat): (spans: seq<Span>)
    requires i <= |code|
    ensures forall k :: 0 <= k < |spans| ==> i <= spans[k].start < spans[k].end <= |code|
    decreases |code| - i
  {
    if i == |code| then []
    else match GlobalMatchAt(code, i)
      case Some(e) => [Span(i, e)] + GlobalScan(code, e)
      case None => GlobalScan(code, i + 1)
  }

  /** Every span yielded is a match of the pattern. */
  lemma {:induction false} GlobalScanSound(code: string, i: nat)
    requires i <= |code|
    ensures forall k :: 0 <= k < |GlobalScan(code, i)| ==>
      GlobalToken(code, GlobalScan(code, i)[k].start, GlobalScan(code, i)[k].end)
    decreases |code| - i
  {
    if i < |code| {
      var spans := GlobalScan(code, i);
      match GlobalMatchAt(code, i)
      case Some(e) =>
        var rest := GlobalScan(code, e);
        GlobalScanSound(code, e);
        assert spans == [Span(i, e)] + rest;
        forall k | 0 <= k < |spans| ensures GlobalToken(code, spans[k].start, spans[k].end) {
          if k > 0 { assert spans[k] == rest[k - 1]; }
        }
      case None =>
        GlobalScanSound(code, i + 1);
        assert spans == GlobalScan(code, i + 1);
    }
  }

  /** The matches come left to right and do not overlap: each starts where or after the previous one ends. */
  lemma {:induction false} GlobalScanOrdered(code: string, i: nat)
    requires i <= |code|
    ensures Disjoint(GlobalScan(code, i))
    decreases |code| - i
  {
    if i < |code| {
      var m := GlobalMatchAt(code, i);
      if m.Some? {
        var e := m.value;
        GlobalScanOrdered(code, e);
        var rest := GlobalScan(code, e);
        var spans := [Span(i, e)] + rest;
        assert GlobalScan(code, i) == spans;
        forall k, l | 0 <= k < l < |spans| ensures spans[k].end <= spans[l].start {
          assert spans[l] == rest[l - 1];
          assert e <= rest[l - 1].start;
          if k > 0 { assert spans[k] == rest[k - 1]; }
        }
      } else {
        GlobalScanOrdered(code, i + 1);
        assert GlobalScan(code, i) == GlobalScan(code, i + 1);
      }
    }
  }


  /** The start positions of `spans`. */
  function Starts(spans: seq<Span>): (r: seq<nat>)
    ensures |r| == |spans|
    ensures forall k :: 0 <= k < |r| ==> r[k] == spans[k].start
  {
    seq(|spans|, k requires 0 <= k < |spans| => spans[k].start)
  }

  lemma NameHasNoCaret(s: string)
    requires IsName(s)
    ensures forall k :: 0 <= k < |s| ==> s[k] != '^'
  {
    if !IsIdentifier(s) {
      assert forall k :: 1 <= k < |s| ==> s[1..][k - 1] == s[k];
    }
  }

  /** Every `^` that starts a global reference is found: matches cannot start inside one another. */
  lemma {:induction false} GlobalScanFinds(code: string, i: nat, p: nat)
    requires i <= p <= |code|
    requires GlobalMatchAt(code, p).Some?
    ensures p in Starts(GlobalScan(code, i))
    decreases |code| - i
  {
    var m := GlobalMatchAt(code, i);
    if m.Some? {
      var e := m.value;
      var spans := GlobalScan(code, i);
      var rest := GlobalScan(code, e);
      assert spans == [Span(i, e)] + rest;
      if p == i {
        assert Starts(spans) == [i] + Starts(rest);
      } else {
        var name := code[i + 1..e];
        NameHasNoCaret(name);
        forall q | i < q < e ensures code[q] != '^' {
          assert name[q - i - 1] == code[q];
        }
        GlobalScanFinds(code, e, p);
        assert Starts(spans) == [i] + Starts(rest);
      }
    } else {
      assert p != i;
      GlobalScanFinds(code, i + 1, p);
    }
  }

  /** The names `finditer` yields for the global pattern, without the `^`. */
  function GlobalNames(code: string): (names: seq<string>)
    ensures forall k :: 0 <= k < |names| ==> IsName(names[k])
  {
    GlobalScanSound(code, 0);
    var spans := GlobalScan(code, 0);
    seq(|spans|, k requires 0 <= k < |spans| => code[spans[k].start + 1..spans[k].end])
  }

  // ---------------------------------------------------------------------
  // Reference patterns: \bW\b, (?<![A-Za-z])W\b and \^W\b
  // ---------------------------------------------------------------------

  datatype RefPattern =
    | WholeWord(word: string)   // \bW\b, for labels
    | LocalRef(word: string)    // (?<![A-Za-z])W\b, for local variables
    | GlobalRef(word: string)   // \^W\b, for globals
  {
    function Length(): nat
    {
      if GlobalRef? then |word| + 1 else |word|
    }
  }

  /** `\b` at position `k` of `s`: exactly one of the neighbouring characters is a word character. */
  predicate Boundary(s: string, k: nat)
    requires k <= |s|
  {
    (k > 0 && IsWordChar(s[k - 1])) != (k < |s| && IsWordChar(s[k]))
  }

  /** The pattern matches `line` at position `i`. */
  predicate MatchesAt(p: RefPattern, line: string, i: nat)
  {
    && i + p.Length() <= |line|
    && Boundary(line, i + p.Length())
    && match p
       case WholeWord(w) => line[i..i + |w|] == w && Boundary(line, i)
       case LocalRef(w) => line[i..i + |w|] == w && (i == 0 || !IsLetter(line[i - 1]))
       case GlobalRef(w) => line[i] == '^' && line[i + 1..i + 1 + |w|] == w
  }

  /** `pattern.finditer(line)` from position `i`: the start columns of the matches. */
  function FindAll(p: RefPattern, line: string, i: nat): seq<nat>
    decreases |line| + 1 - i
  {
    if i > |line| then []
    else if MatchesAt(p, line, i) then [i] + FindAll(p, line, i + Step(p))
    else FindAll(p, line, i + 1)
  }

  /** Every start reported is at or after `i`. */
  lemma {:induction false} FindAllFrom(p: RefPattern, line: string, i: nat)
    ensures forall k :: 0 <= k < |FindAll(p, line, i)| ==> i <= FindAll(p, line, i)[k]
    decreases |line| + 1 - i
  {
    if i <= |line| {
      if MatchesAt(p, line, i) {
        FindAllMatch(p, line, i);
        FindAllFrom(p, line, i + Step(p));
      } else {
        FindAllSkip(p, line, i);
        FindAllFrom(p, line, i + 1);
      }
    }
  }

  /** Every start reported is a match, at or after `i`. */
  lemma {:induction false} FindAllSound(p: RefPattern, line: string, i: nat)
    ensures forall k :: 0 <= k < |FindAll(p, line, i)| ==>
      i <= FindAll(p, line, i)[k] && MatchesAt(p, line, FindAll(p, line, i)[k])
    decreases |line| + 1 - i
  {
    FindAllFrom(p, line, i);
    if i <= |line| {
      var s := FindAll(p, line, i);
      if MatchesAt(p, line, i) {
        var rest := FindAll(p, line, i + Step(p));
        FindAllMatch(p, line, i);
        FindAllSound(p, line, i + Step(p));
        forall k | 0 <= k < |s| ensures MatchesAt(p, line, s[k]) {
          if k > 0 { assert s[k] == rest[k - 1]; }
        }
      } else {
        FindAllSkip(p, line, i);
        FindAllSound(p, line, i + 1);
      }
    }
  }

  /** Successive matches do not overlap: each starts after the previous one ends. */
  lemma {:induction false} FindAllDisjoint(p: RefPattern, line: string, i: nat)
    ensures forall k, l :: 0 <= k < l < |FindAll(p, line, i)| ==>
      FindAll(p, line, i)[k] + p.Length() <= FindAll(p, line, i)[l]
    decreases |line| + 1 - i
  {
    if i <= |line| {
      var s := FindAll(p, line, i);
      if MatchesAt(p, line, i) {
        var rest := FindAll(p, line, i + Step(p));
        FindAllMatch(p, line, i);
        FindAllDisjoint(p, line, i + Step(p));
        FindAllFrom(p, line, i + Step(p));
        forall k, l | 0 <= k < l < |s| ensures s[k] + p.Length() <= s[l] {
          assert s[l] == rest[l - 1];
          if k > 0 { assert s[k] == rest[k - 1]; }
        }
      } else {
        FindAllSkip(p, line, i);
        FindAllDisjoint(p, line, i + 1);
      }
    }
  }

  /** The searched word has the shape of what the tables hold for that kind of symbol. */
  predicate WellFormed(p: RefPattern)
  {
    match p
    case WholeWord(w) => IsName(w)
    case LocalRef(w) => IsIdentifier(w)
    case GlobalRef(w) => IsName(w)
  }

  /** Two matches of a well-formed pattern never overlap. */
  lemma NoOverlap(p: RefPattern, line: string, a: nat, b: nat)
    requires WellFormed(p)
    requires a < b < a + p.Length()
    requires MatchesAt(p, line, a)
    ensures !MatchesAt(p, line, b)
  {
    var w := p.word;
    var L := |w|;
    assert forall k :: 1 <= k < L ==> IsAlnum(w[k]) by {
      if !IsIdentifier(w) {
        forall k | 1 <= k < L ensures IsAlnum(w[k]) { assert w[1..][k - 1] == w[k]; }
      }
    }
    if p.GlobalRef? {
      // the `^` of a second match would have to be a character of the first name
      assert line[a + 1..a + 1 + L][b - a - 1] == line[b];
      assert line[b] != '^';
    } else {
      // the first match ends at a boundary, which a second match would have to cross
      assert line[a..a + L][L - 1] == line[a + L - 1];
      assert IsWordChar(line[a + L - 1]);
      if b + L <= |line| {
        assert line[b..b + L][a + L - b] == line[a + L];
        assert !IsWordChar(line[a + L]);
        assert line[b..b + L] != w;
      }
    }
  }

  /** How far `finditer` moves past a match: its length, or one for an empty match. */
  function Step(p: RefPattern): nat
  {
    if p.Length() == 0 then 1 else p.Length()
  }

  /** A match at `i` is reported, and the search resumes after it. */
  lemma FindAllMatch(p: RefPattern, line: string, i: nat)
    requires MatchesAt(p, line, i)
    ensures FindAll(p, line, i) == [i] + FindAll(p, line, i + Step(p))
  {
  }

  /** Without a match at `i`, the search resumes at the next position. */
  lemma FindAllSkip(p: RefPattern, line: string, i: nat)
    requires i <= |line| && !MatchesAt(p, line, i)
    ensures FindAll(p, line, i) == FindAll(p, line, i + 1)
  {
  }

  /** `finditer` with a well-formed pattern reports every position where the pattern matches. */
  lemma {:induction false} FindAllComplete(p: RefPattern, line: string, i: nat, q: nat)
    requires WellFormed(p)
    requires i <= q && MatchesAt(p, line, q)
    ensures q in FindAll(p, line, i)
    decreases |line| + 1 - i
  {
    if i == q {
      FindAllMatch(p, line, i);
    } else if MatchesAt(p, line, i) {
      FindAllMatch(p, line, i);
      if q < i + Step(p) {
        NoOverlap(p, line, i, q);
      } else {
        FindAllComplete(p, line, i + Step(p), q);
      }
    } else {
      FindAllSkip(p, line, i);
      FindAllComplete(p, line, i + 1, q);
    }
  }

}
