/** The C++ client's settings file: one `key = value` pair per line, `#`
    starting a comment, kept as an ordered list of pairs. */
module TextNamelist {
  import opened Results
  import NameLists

  // ---------------------------------------------------------------- trimming

  predicate IsBlank(c: char)
  {
    c == ' ' || c == '\t'
  }

  /** The first position from `i` on that holds no blank (`|s|` when there
      is none). */
  function SkipBlanks(s: string, i: nat): (n: nat)
    requires i <= |s|
    ensures i <= n <= |s|
    ensures forall k :: i <= k < n ==> IsBlank(s[k])
    ensures n < |s| ==> !IsBlank(s[n])
    decreases |s| - i
  {
    if i < |s| && IsBlank(s[i]) then SkipBlanks(s, i + 1) else i
  }

  /** The position just past the last non-blank before `j` (0 when there is
      none). */
  function BackBlanks(s: string, j: nat): (n: nat)
    requires j <= |s|
    ensures n <= j
    ensures forall k :: n <= k < j ==> IsBlank(s[k])
    ensures n > 0 ==> !IsBlank(s[n - 1])
  {
    if j > 0 && IsBlank(s[j - 1]) then BackBlanks(s, j - 1) else j
  }

  /** `s` without its leading and trailing spaces and tabs: empty when `s` is
      all blank, otherwise the stretch from the first to the last non-blank
      character. */
  function Trim(s: string): (r: string)
    ensures |r| <= |s|
    ensures r != "" ==> !IsBlank(r[0]) && !IsBlank(r[|r| - 1])
  {
    var b := SkipBlanks(s, 0);
    if b == |s| then "" else s[b..BackBlanks(s, |s|)]
  }

  /** The trim is empty exactly for an all-blank string; otherwise it starts
      and ends with a non-blank, only blanks precede it and only blanks follow
      it. */
  lemma TrimSpec(s: string)
    ensures var t, b := Trim(s), SkipBlanks(s, 0);
      && (t == "" <==> forall k :: 0 <= k < |s| ==> IsBlank(s[k]))
      && (t != "" ==> !IsBlank(t[0]) && !IsBlank(t[|t| - 1]))
      && b + |t| <= |s| && t == s[b..b + |t|]
      && forall k :: b + |t| <= k < |s| ==> IsBlank(s[k])
  {
    var b := SkipBlanks(s, 0);
    if b < |s| {
      var e := BackBlanks(s, |s|);
      assert b < e by {
        assert !IsBlank(s[b]);
      }
      var t := s[b..e];
      assert t[0] == s[b] && t[|t| - 1] == s[e - 1];
    }
  }

  /** A string with no blank at either end is its own trim. */
  lemma TrimOfTrimmed(s: string)
    requires s == "" || (!IsBlank(s[0]) && !IsBlank(s[|s| - 1]))
    ensures Trim(s) == s
  {
  }

  /** `RemoveWhitespaceFromString`: count the leading blanks, then the
      trailing ones, and keep what lies between. */
  method RemoveWhitespace(s: string) returns (t: string)
    ensures t == Trim(s)
  {
    var b := 0;
    var e := |s|;
    var i := 0;
    while i < |s| && IsBlank(s[i])
      invariant 0 <= i <= |s| && b == i
      invariant forall k :: 0 <= k < i ==> IsBlank(s[k])
    {
      b := b + 1;
      i := i + 1;
    }
    i := |s| - 1;
    while i >= 0 && IsBlank(s[i])
      invariant -1 <= i < |s| && e == i + 1
      invariant forall k :: e <= k < |s| ==> IsBlank(s[k])
    {
      e := e - 1;
      i := i - 1;
    }
    if e <= b {
      t := "";
    } else {
      t := s[b..e];
    }
  }

  // ---------------------------------------------------------------- lines

  predicate IsAsciiLetter(c: char)
  {
    'a' <= c <= 'z' || 'A' <= c <= 'Z'
  }

  predicate IsAsciiAlnum(c: char)
  {
    IsAsciiLetter(c) || '0' <= c <= '9'
  }

  /** A key starts with a letter or '_' and holds only letters, digits and '_'. */
  predicate ValidKey(k: string)
  {
    && |k| >= 1
    && (IsAsciiLetter(k[0]) || k[0] == '_')
    && forall i :: 0 <= i < |k| ==> IsAsciiAlnum(k[i]) || k[i] == '_'
  }

  /** The line with everything from its first '#' on removed. */
  function Uncommented(line: string): string
  {
    var h := NameLists.FindIndex(line, '#');
    if h == -1 then line else line[..h]
  }

  /** The comment-free text is the longest prefix without '#'. */
  lemma UncommentedSpec(line: string)
    ensures var r := Uncommented(line);
      && |r| <= |line| && r == line[..|r|]
      && (forall k :: 0 <= k < |r| ==> r[k] != '#')
      && (|r| < |line| ==> line[|r|] == '#')
  {
  }

  /** How the comment-free part of a line splits at '='. */
  datatype Split = NoEquals(text: string) | AtEquals(key: string, value: string) | TwoEquals

  /** The scan of `FromFile` over one line from position `i`, `eq` being the
      first '=' met so far (-1 for none): it stops at the end or at the first
      '#', and gives up at a second '='. */
  function ScanFrom(line: string, i: nat, eq: int): Split
    requires i <= |line| && -1 <= eq < i
    decreases |line| - i
  {
    if i == |line| || line[i] == '#' then
      if eq == -1 then NoEquals(line[..i]) else AtEquals(line[..eq], line[eq + 1..i])
    else if line[i] == '=' then
      if eq != -1 then TwoEquals else ScanFrom(line, i + 1, i)
    else ScanFrom(line, i + 1, eq)
  }

  function SplitLine(line: string): Split
  {
    ScanFrom(line, 0, -1)
  }

  /** What the scan gives, in terms of the comment-free text: the whole text
      when it has no '=', a key and a value around its only '=', and an error
      exactly when it holds two. */
  predicate SplitsText(r: Split, body: string)
  {
    && (r.NoEquals? ==> r.text == body && '=' !in body)
    && (r.AtEquals? ==> r.key + "=" + r.value == body && '=' !in r.key && '=' !in r.value)
    && (r.TwoEquals? <==> exists p, q :: 0 <= p < q < |body| && body[p] == '=' && body[q] == '=')
  }

  /** Where a scan that has met no '#' stands relative to the comment-free
      text: past a prefix of it, at its end exactly on the end of the line or
      on a '#'. */
  lemma UncommentedFrom(line: string, i: nat)
    requires i <= |line|
    requires forall k :: 0 <= k < i ==> line[k] != '#'
    ensures var body := Uncommented(line);
      && i <= |body| <= |line| && body == line[..|body|]
      && (|body| == i <==> i == |line| || line[i] == '#')
  {
    UncommentedSpec(line);
    assert line == line[..i] + line[i..];
    NameLists.FindIndexAppend(line[..i], line[i..], '#');
    if i < |line| && line[i] == '#' {
      NameLists.FindIndexBefore(line[i..], '#', 0);
    }
  }

  lemma {:induction false} ScanFromSpec(line: string, i: nat, eq: int)
    requires i <= |line| && -1 <= eq < i
    requires forall k :: 0 <= k < i ==> line[k] != '#'
    requires forall k :: 0 <= k < i && k != eq ==> line[k] != '='
    requires eq >= 0 ==> line[eq] == '='
    ensures SplitsText(ScanFrom(line, i, eq), Uncommented(line))
    decreases |line| - i
  {
    var body := Uncommented(line);
    UncommentedFrom(line, i);
    if i == |line| || line[i] == '#' {
      assert body == line[..i];
      if eq != -1 {
        var key, value := line[..eq], line[eq + 1..i];
        assert body == key + "=" + value;
        assert forall k :: 0 <= k < |key| ==> key[k] != '=';
        assert forall k :: 0 <= k < |value| ==> value[k] == line[eq + 1 + k];
      }
    } else if line[i] == '=' {
      if eq != -1 {
        assert body[eq] == '=' && body[i] == '=';
      } else {
        ScanFromSpec(line, i + 1, i);
      }
    } else {
      ScanFromSpec(line, i + 1, eq);
    }
  }

  /** Without a second '=', the comment-free text is either kept whole or cut
      at its '=' into a key and a value, neither holding '='; a line is
      refused for its equal signs exactly when two of them come before the
      first '#'. */
  lemma SplitLineSpec(line: string)
    ensures SplitsText(SplitLine(line), Uncommented(line))
  {
    ScanFromSpec(line, 0, -1);
  }

  /** A text cut at its only '=' determines the key and the value. */
  lemma CutUnique(a: string, b: string, c: string, d: string)
    requires '=' !in a && '=' !in c && a + "=" + b == c + "=" + d
    ensures a == c && b == d
  {
    var w := a + "=" + b;
    assert w == a + ("=" + b) == c + ("=" + d);
    NameLists.FindIndexAppend(a, "=" + b, '=');
    NameLists.FindIndexAppend(c, "=" + d, '=');
    NameLists.FindIndexBefore("=" + b, '=', 0);
    NameLists.FindIndexBefore("=" + d, '=', 0);
    assert |a| == |c|;
    assert a == w[..|a|] && c == w[..|c|];
    assert b == w[|a| + 1..] && d == w[|c| + 1..];
  }

  /** The scan loop of `FromFile` over one line: the first '=' before any '#',
      and an error at a second one.  The loop stops at the first '#', where
      the source truncates the line and breaks. */
  method ScanLine(line: string) returns (r: Split)
    ensures r == SplitLine(line)
  {
    var eq := -1;
    var i := 0;
    while i < |line| && line[i] != '#'
      invariant 0 <= i <= |line| && -1 <= eq < i
      invariant ScanFrom(line, i, eq) == SplitLine(line)
    {
      if line[i] == '=' {
        if eq != -1 {
          return TwoEquals;
        }
        eq := i;
      }
      i := i + 1;
    }
    if eq == -1 {
      r := NoEquals(line[..i]);
    } else {
      r := AtEquals(line[..eq], line[eq + 1..i]);
    }
  }

  /** The key check loop of `FromFile`. */
  method CheckKey(key: string) returns (ok: bool)
    ensures ok <==> key == "" || ValidKey(key)
  {
    var i := 0;
    while i < |key|
      invariant 0 <= i <= |key|
      invariant i > 0 ==> IsAsciiLetter(key[0]) || key[0] == '_'
      invariant forall k :: 0 <= k < i ==> IsAsciiAlnum(key[k]) || key[k] == '_'
    {
      if i == 0 && !(IsAsciiLetter(key[i]) || key[i] == '_') {
        return false;
      }
      if !IsAsciiAlnum(key[i]) && key[i] != '_' {
        return false;
      }
      i := i + 1;
    }
    ok := true;
  }

  // ---------------------------------------------------------------- files

  /** Reasons `FromFile` returns 1; the number is the source's line counter,
      which counts accepted lines only. */
  datatype NamelistError = NotEmpty | MultipleEquals | MalformedLine(line: int) | MalformedKey(line: int)

  /** A refusal that is the '=' count, or names line `n`. */
  predicate ReportsLine(e: NamelistError, n: int)
  {
    e.MultipleEquals? || e == MalformedLine(n) || e == MalformedKey(n)
  }

  datatype LineResult = Skip | Pair(key: string, value: string) | Refused(error: NamelistError)

  /** One line of a settings file; `lineNo` is the counter's current value. */
  function ParseLine(line: string, lineNo: int): (r: LineResult)
    ensures r.Pair? ==> ValidKey(r.key)
    ensures r.Refused? ==> ReportsLine(r.error, lineNo)
  {
    match SplitLine(line)
    case TwoEquals => Refused(MultipleEquals)
    case NoEquals(text) => if Trim(text) != "" then Refused(MalformedLine(lineNo)) else Skip
    case AtEquals(k, v) =>
      var key := Trim(k);
      if key == "" then Refused(MalformedLine(lineNo))
      else if !ValidKey(key) then Refused(MalformedKey(lineNo))
      else Pair(key, Trim(v))
  }

  lemma TrimmedPartOf(s: string)
    ensures forall c :: c in Trim(s) ==> c in s
  {
    var b := SkipBlanks(s, 0);
    forall c | c in Trim(s) ensures c in s {
      var i :| 0 <= i < |Trim(s)| && Trim(s)[i] == c;
      assert s[b + i] == c;
    }
  }

  /** A value cut from comment-free text after its only '=' survives
      trimming as a writable value. */
  lemma TrimmedValueWritable(v: string)
    requires '=' !in v && '#' !in v
    ensures var t := Trim(v);
      && '=' !in t && '#' !in t
      && (t == "" || (!IsBlank(t[0]) && !IsBlank(t[|t| - 1])))
  {
    TrimSpec(v);
    TrimmedPartOf(v);
  }

  /** Every pair a line yields is one `ToFile` writes back in the same form. */
  lemma ParsedPairIsWritable(line: string, lineNo: int)
    requires ParseLine(line, lineNo).Pair?
    ensures var r := ParseLine(line, lineNo); Writable((r.key, r.value))
  {
    var sp := SplitLine(line);
    assert sp.AtEquals?;
    SplitLineSpec(line);
    UncommentedSpec(line);
    ValueHasNoHash(sp.key, sp.value, Uncommented(line));
    TrimmedValueWritable(sp.value);
  }

  lemma ValueHasNoHash(key: string, value: string, body: string)
    requires key + "=" + value == body
    requires forall k :: 0 <= k < |body| ==> body[k] != '#'
    ensures '#' !in value
  {
    forall k | 0 <= k < |value|
      ensures value[k] != '#'
    {
      assert value[k] == body[|key| + 1 + k];
    }
  }

  /** The pairs lines `n..` add, in order, and the error that stopped the
      read; `lineNo` is the counter on reaching line `n`. */
  function ParseLines(parse: (string, int) -> LineResult, lines: seq<string>, n: nat, lineNo: int)
    : (seq<(string, string)>, Option<NamelistError>)
    requires n <= |lines|
    decreases |lines| - n
  {
    if n == |lines| then ([], None)
    else
      var r := parse(lines[n], lineNo);
      if r.Refused? then ([], Some(r.error))
      else
        var rest := ParseLines(parse, lines, n + 1, if r.Pair? then lineNo + 1 else lineNo);
        (if r.Pair? then [(r.key, r.value)] + rest.0 else rest.0, rest.1)
  }

  /** With a line parser whose refusals name the counter it is given, the
      counter in a reported error is the counter on arrival plus the number
      of pairs read before it. */
  lemma {:induction false} LineCounter(parse: (string, int) -> LineResult, lines: seq<string>, n: nat, lineNo: int)
    requires n <= |lines|
    requires forall line, c :: parse(line, c).Refused? ==> ReportsLine(parse(line, c).error, c)
    ensures var r := ParseLines(parse, lines, n, lineNo);
      && |r.0| <= |lines| - n
      && (r.1.Some? ==> ReportsLine(r.1.value, lineNo + |r.0|))
    decreases |lines| - n
  {
    if n < |lines| {
      var l := parse(lines[n], lineNo);
      if !l.Refused? {
        LineCounter(parse, lines, n + 1, if l.Pair? then lineNo + 1 else lineNo);
      }
    }
  }

  /** A whole file, the counter starting at 1: at most one pair per line, and
      an error reports one more than the number of pairs read before it. */
  function ParseFile(lines: seq<string>): (r: (seq<(string, string)>, Option<NamelistError>))
    ensures |r.0| <= |lines|
    ensures r.1.Some? ==> ReportsLine(r.1.value, |r.0| + 1)
  {
    LineCounter(ParseLine, lines, 0, 1);
    ParseLines(ParseLine, lines, 0, 1)
  }

  /** A pair `ToFile` writes in a form `FromFile` reads back unchanged. */
  predicate Writable(p: (string, string))
  {
    && ValidKey(p.0)
    && '=' !in p.1 && '#' !in p.1
    && (p.1 == "" || (!IsBlank(p.1[0]) && !IsBlank(p.1[|p.1| - 1])))
  }

  /** The lines `ToFile` writes. */
  function Rendered(pairs: seq<(string, string)>): (lines: seq<string>)
    ensures |lines| == |pairs|
  {
    seq(|pairs|, i requires 0 <= i < |pairs| => pairs[i].0 + "=" + pairs[i].1)
  }

  function Keys(pairs: seq<(string, string)>): (keys: seq<string>)
    ensures |keys| == |pairs| && forall i :: 0 <= i < |pairs| ==> keys[i] == pairs[i].0
  {
    seq(|pairs|, i requires 0 <= i < |pairs| => pairs[i].0)
  }

  lemma ParseWrittenLine(p: (string, string), lineNo: int)
    requires Writable(p)
    ensures ParseLine(p.0 + "=" + p.1, lineNo) == Pair(p.0, p.1)
  {
    var (k, v) := p;
    var line := k + "=" + v;
    assert '#' !in k by {
      assert forall i :: 0 <= i < |k| ==> k[i] != '#';
    }
    assert '=' !in k by {
      assert forall i :: 0 <= i < |k| ==> k[i] != '=';
    }
    assert '#' !in line by {
      assert forall c :: c in line ==> c in k || c == '=' || c in v;
    }
    UncommentedSpec(line);
    assert Uncommented(line) == line;
    SplitLineSpec(line);
    var sp := SplitLine(line);
    assert line[|k|] == '=';
    assert forall q :: 0 <= q < |line| && line[q] == '=' ==> q == |k| by {
      assert forall q :: 0 <= q < |k| ==> line[q] == k[q];
      assert forall q :: |k| < q < |line| ==> line[q] == v[q - |k| - 1];
    }
    CutUnique(sp.key, sp.value, k, v);
    TrimOfTrimmed(k);
    TrimOfTrimmed(v);
  }

  /** Collecting lines that each parse to a pair yields those pairs, in
      order, whatever the counter. */
  lemma {:induction false} CollectPairs(parse: (string, int) -> LineResult, lines: seq<string>,
                                         pairs: seq<(string, string)>, n: nat, lineNo: int)
    requires n <= |lines| == |pairs|
    requires forall i, m :: 0 <= i < |lines| ==> parse(lines[i], m) == Pair(pairs[i].0, pairs[i].1)
    ensures ParseLines(parse, lines, n, lineNo) == (pairs[n..], None)
    decreases |lines| - n
  {
    if n < |lines| {
      CollectPairs(parse, lines, pairs, n + 1, lineNo + 1);
      assert pairs[n..] == [pairs[n]] + pairs[n + 1..];
    }
  }

  /** Reading back what `ToFile` wrote restores the pairs, in order. */
  lemma FileRoundTrip(pairs: seq<(string, string)>)
    requires forall i :: 0 <= i < |pairs| ==> Writable(pairs[i])
    ensures ParseFile(Rendered(pairs)) == (pairs, None)
  {
    var lines := Rendered(pairs);
    forall i, m | 0 <= i < |lines|
      ensures ParseLine(lines[i], m) == Pair(pairs[i].0, pairs[i].1)
    {
      ParseWrittenLine(pairs[i], m);
    }
    CollectPairs(ParseLine, lines, pairs, 0, 1);
  }

  /** The body of the `FromFile` line loop: scan for '=', trim key and
      value, refuse a malformed line, skip an empty key, check the key. */
  method ReadLine(line: string, lineNo: int) returns (r: LineResult)
    ensures r == ParseLine(line, lineNo)
  {
    var split := ScanLine(line);
    if split.TwoEquals? {
      return Refused(MultipleEquals);
    }
    var key, value;
    if split.NoEquals? {
      key := RemoveWhitespace(split.text);
      value := RemoveWhitespace("");
      if key != "" {
        return Refused(MalformedLine(lineNo));
      }
    } else {
      key := RemoveWhitespace(split.key);
      value := RemoveWhitespace(split.value);
      if key == "" {
        return Refused(MalformedLine(lineNo));
      }
    }
    if key == "" {
      return Skip;
    }
    var ok := CheckKey(key);
    if !ok {
      return Refused(MalformedKey(lineNo));
    }
    r := Pair(key, value);
  }

  class Namelist {
    var pairs: seq<(string, string)>

    constructor ()
      ensures pairs == []
    {
      pairs := [];
    }

    /** `FromFile` over the file's lines: refuses a non-empty namelist, else
        appends the pairs line by line; pairs before an error stay. */
    method FromFile(lines: seq<string>) returns (err: Option<NamelistError>)
      modifies this
      ensures old(pairs) != [] ==> err == Some(NotEmpty) && pairs == old(pairs)
      ensures old(pairs) == [] ==> (pairs, err) == ParseFile(lines)
    {
      if |pairs| != 0 {
        return Some(NotEmpty);
      }
      var n := 0;
      var lineNo := 1;
      assert pairs + ParseFile(lines).0 == ParseFile(lines).0;
      while n < |lines|
        invariant 0 <= n <= |lines|
        invariant var rest := ParseLines(ParseLine, lines, n, lineNo);
          ParseFile(lines) == (pairs + rest.0, rest.1)
      {
        var r := ReadLine(lines[n], lineNo);
        if r.Refused? {
          assert pairs + [] == pairs;
          return Some(r.error);
        }
        if r.Pair? {
          ghost var rest := ParseLines(ParseLine, lines, n + 1, lineNo + 1);
          assert pairs + ([(r.key, r.value)] + rest.0) == (pairs + [(r.key, r.value)]) + rest.0;
          pairs := pairs + [(r.key, r.value)];
          lineNo := lineNo + 1;
        }
        n := n + 1;
      }
      assert pairs + [] == pairs;
      err := None;
    }

    /** `ToFile`: one `key=value` line per pair, in stored order. */
    method ToFile() returns (lines: seq<string>)
      ensures lines == Rendered(pairs)
    {
      lines := [];
      var i := 0;
      while i < |pairs|
        invariant 0 <= i <= |pairs|
        invariant lines == Rendered(pairs[..i])
      {
        assert Rendered(pairs[..i + 1]) == Rendered(pairs[..i]) + [pairs[i].0 + "=" + pairs[i].1];
        lines := lines + [pairs[i].0 + "=" + pairs[i].1];
        i := i + 1;
      }
      assert pairs[..i] == pairs;
    }

    /** `operator[]`: the slot of the first pair with this key, appending
        `(key, "")` when there is none; the caller may assign through the
        slot's index. */
    method Entry(key: string) returns (index: nat, value: string)
      modifies this
      ensures index < |pairs| && pairs[index] == (key, value)
      ensures var k := NameLists.FindIndex(Keys(old(pairs)), key);
        if k >= 0 then pairs == old(pairs) && index == k
        else pairs == old(pairs) + [(key, "")] && index == |old(pairs)|
    {
      var i := 0;
      while i < |pairs|
        invariant 0 <= i <= |pairs|
        invariant forall j :: 0 <= j < i ==> pairs[j].0 != key
      {
        if pairs[i].0 == key {
          NameLists.FindIndexBefore(Keys(pairs), key, i);
          return i, pairs[i].1;
        }
        i := i + 1;
      }
      pairs := pairs + [(key, "")];
      return |pairs| - 1, "";
    }
  }
}
