/**
 * What one line of a MUMPS routine contributes to the symbol tables: the
 * label defined at its start, if any, and the local and global variables
 * named in its code part, one entry per occurrence.
 */
module LineScan {
  import opened Common
  import opened Text
  import opened Language
  import opened Scanner

  /** `line and not line[0].isspace() and line[0] != ';'` */
  predicate MayHaveLabel(line: string)
  {
    |line| > 0 && !IsSpace(line[0]) && line[0] != ';'
  }

  /** The label a line defines, if any. */
  function LabelOn(line: string): (m: Option<LabelMatch>)
    ensures m.Some? ==> MayHaveLabel(line) && IsName(m.value.name)
    ensures m.Some? ==> |m.value.name| <= |line| && m.value.name == line[..|m.value.name|]
  {
    if MayHaveLabel(line) then MatchLabel(line) else None
  }

  /** The names of `names` that are not skipped as command abbreviations, in order. */
  function Kept(names: seq<string>): (r: seq<string>)
    ensures forall k :: 0 <= k < |r| ==> r[k] in names && !IsCommandLetter(r[k])
    decreases |names|
  {
    if names == [] then []
    else
      var init := names[..|names| - 1];
      var last := names[|names| - 1];
      Kept(init) + (if IsCommandLetter(last) then [] else [last])
  }

  /** The local variables a line contributes, one per occurrence. */
  function LocalsOn(line: string): (names: seq<string>)
    ensures forall k :: 0 <= k < |names| ==> IsIdentifier(names[k]) && !IsCommandLetter(names[k])
  {
    var all := LocalNames(CodePart(line));
    var r := Kept(all);
    assert forall k :: 0 <= k < |r| ==> r[k] in all;
    r
  }

  /** The global variables a line contributes, one per occurrence, without the `^`. */
  function GlobalsOn(line: string): (names: seq<string>)
    ensures forall k :: 0 <= k < |names| ==> IsName(names[k])
  {
    GlobalNames(CodePart(line))
  }

  /** A skipped name never survives, every other occurrence does. */
  lemma {:induction false} KeptCount(names: seq<string>, x: string)
    ensures Count(Kept(names), x) == if IsCommandLetter(x) then 0 else Count(names, x)
    decreases |names|
  {
    if names != [] {
      var init := names[..|names| - 1];
      var last := names[|names| - 1];
      KeptCount(init, x);
      CountSnoc(names, x);
      CountAppend(Kept(init), if IsCommandLetter(last) then [] else [last], x);
    }
  }

  /** Text after the first `;` contributes no variables. */
  lemma CommentIgnored(code: string, comment: string)
    requires ';' !in code
    ensures LocalsOn(code + [';'] + comment) == LocalsOn(code)
    ensures GlobalsOn(code + [';'] + comment) == GlobalsOn(code)
  {
    var line := code + [';'] + comment;
    var c := CodePart(line);
    assert line[..|code|] == code;
    assert line[|code|] == ';';
    assert forall k :: 0 <= k < |code| ==> line[k] != ';';
    assert |c| == |code|;
    assert c == code;
    assert CodePart(code) == code;
  }

  /** A line that is blank, starts with white space or starts with a comment defines no label. */
  lemma NoLabelWithoutName(line: string)
    requires |line| == 0 || IsSpace(line[0]) || line[0] == ';'
    ensures LabelOn(line).None?
  {
  }

  /** The name of a label followed by something other than `(` has no parameter list. */
  lemma ParamsNeedParen(line: string)
    requires LabelOn(line).Some?
    requires var e := |LabelOn(line).value.name|; e == |line| || line[e] != '('
    ensures LabelOn(line).value.params.None?
  {
  }

  /**
   * A name followed by any one character and then `)`, `LABEL()` among
   * them, has no parameter list; nor has a name whose `(` is never closed.
   */
  lemma ParamsEmptyOrUnclosed(line: string)
    requires LabelOn(line).Some?
    requires var e := |LabelOn(line).value.name|;
      (e + 1 < |line| && line[e + 1] == ')') || ')' !in line[e..]
    ensures LabelOn(line).value.params.None?
  {
    var e := |LabelOn(line).value.name|;
    if e + 1 < |line| && line[e + 1] == ')' {
      assert line[e + 1..][0] == ')';
      assert IndexOf(line[e + 1..], ')') == 0;
    } else if e < |line| {
      assert line[e + 1..] == line[e..][1..];
    }
  }

  /**
   * Writing a label with a parameter list and parsing the line gives back
   * the label and the parameters, provided each parameter is free of
   * surrounding white space, commas and closing parentheses.
   */
  lemma ParamsRoundTrip(name: string, params: seq<string>, rest: string)
    requires IsName(name)
    requires |params| > 0 && params != [""]
    requires forall i :: 0 <= i < |params| ==> ',' !in params[i] && ')' !in params[i] && Strip(params[i]) == params[i]
    ensures LabelOn(name + (['('] + Join(params, ',') + [')'] + rest)) == Some(LabelMatch(name, Some(params)))
  {
    var inner := Join(params, ',');
    var tail := ['('] + inner + [')'] + rest;
    NoParenInJoin(params);
    assert inner != "" by {
      if |params| == 1 { assert inner == params[0]; }
    }
    LabelWithGroup(name, tail, inner, rest);
    StripSplitJoin(params);
  }

  /** A name followed by a parenthesised group: the label is the name, the parameters come from the group. */
  lemma LabelWithGroup(name: string, tail: string, inner: string, rest: string)
    requires IsName(name) && tail == ['('] + inner + [')'] + rest && ')' !in inner && inner != ""
    ensures LabelOn(name + tail) == Some(LabelMatch(name, Some(StripEach(Split(inner, ',')))))
  {
    var line := name + tail;
    assert line[|name|..] == tail;
    ParenGroup(line, |name|, inner, rest);
    assert line[|name|] == '(';
    NameIsMaximal(name, line);
    assert MayHaveLabel(line) by {
      assert line[0] == name[0];
      if !IsIdentifier(name) { assert name[1..][0] == name[1]; }
    }
  }

  /** The parameter group of a line whose text at `e` is `(`, then `inner`, then `)`. */
  lemma ParenGroup(line: string, e: nat, inner: string, rest: string)
    requires e <= |line| && line[e..] == ['('] + inner + [')'] + rest
    requires ')' !in inner
    ensures ParamList(line, e) == if inner == "" then None else Some(StripEach(Split(inner, ',')))
  {
    var tail := line[e + 1..];
    assert tail == line[e..][1..];
    assert tail == inner + [')'] + rest;
    assert tail[|inner|] == ')';
    assert tail[..|inner|] == inner;
    assert IndexOf(tail, ')') == |inner|;
    assert line[e + 1..e + 1 + |inner|] == tail[..|inner|];
  }

  /** Splitting the joined parameters and stripping each part gives back the parameters. */
  lemma StripSplitJoin(params: seq<string>)
    requires |params| > 0
    requires forall i :: 0 <= i < |params| ==> ',' !in params[i] && Strip(params[i]) == params[i]
    ensures StripEach(Split(Join(params, ','), ',')) == params
  {
    var parts := Split(Join(params, ','), ',');
    SplitJoin(params, ',');
    var r := StripEach(parts);
    forall i | 0 <= i < |params| ensures r[i] == params[i] {
      assert r[i] == Strip(parts[i]);
    }
  }

  /** `)` cannot occur in the joined parameters. */
  lemma {:induction false} NoParenInJoin(params: seq<string>)
    requires |params| > 0
    requires forall i :: 0 <= i < |params| ==> ')' !in params[i]
    ensures ')' !in Join(params, ',')
    decreases |params|
  {
    if |params| > 1 {
      NoParenInJoin(params[1..]);
    }
  }

  /** The label pattern takes the whole name when a non-alphanumeric follows it. */
  lemma NameIsMaximal(name: string, line: string)
    requires IsName(name) && |name| < |line| && line[..|name|] == name && !IsAlnum(line[|name|])
    ensures MatchLabel(line).Some? && MatchLabel(line).value.name == name
  {
    var a := |name|;
    assert forall k :: 1 <= k < a ==> IsAlnum(name[k]) by {
      if !IsIdentifier(name) {
        assert forall k :: 1 <= k < a ==> name[1..][k - 1] == name[k];
      }
    }
    assert forall k :: 0 <= k < a ==> line[k] == name[k];
    assert IsLetter(line[0]) || (line[0] == '%' && IsLetter(line[1])) by {
      if !IsIdentifier(name) { assert name[1..][0] == name[1]; }
    }
    var found := MatchLabel(line).value.name;
    var b := |found|;
    assert forall k :: 1 <= k < b ==> IsAlnum(line[k]) by {
      assert forall k :: 0 <= k < b ==> found[k] == line[k];
      if !IsIdentifier(found) {
        assert forall k :: 1 <= k < b ==> found[1..][k - 1] == found[k];
      }
    }
    assert b == a;
  }
}
