/**
 * The lexical half of the Alfred job-script parser (bin/prman_AlfParser.py,
 * lines 28-125): brace matching, indentation, the extent of one command and
 * the `-name value` option scanner.  Each index loop of the source is a
 * method here, proved equal to a recursive function; the lemmas say what
 * those functions compute.
 */
module AlfArgs {
  import opened Py

  // ---------------------------------------------------------------------------
  // Braces (lines 28-40)

  function Delta(c: char): int {
    if c == '{' then 1 else if c == '}' then -1 else 0
  }

  /** Opening minus closing braces in `p`. */
  function Depth(p: string): int
    decreases |p|
  {
    if |p| == 0 then 0 else Depth(p[..|p| - 1]) + Delta(p[|p| - 1])
  }

  /** Braces left open after the first `n` characters. */
  function Open(s: string, n: nat): int
    requires n <= |s|
  {
    Depth(s[..n])
  }

  /** Lines 32-40 from index `i` on, with `depth` braces open before it. */
  function BracketFrom(s: string, i: nat, depth: int): Option<string>
    requires i <= |s|
    decreases |s| - i
  {
    if i == |s| then None
    else
      var d := depth + Delta(s[i]);
      if d == 0 then Some(Slice(s, 1, i)) else BracketFrom(s, i + 1, d)
  }

  /** Lines 28-40: `__matchBracket`. */
  function Bracketed(s: string): Outcome<Option<string>> {
    if |s| == 0 then Raise(IndexError)
    else if s[0] != '{' then Ok(None)
    else Ok(BracketFrom(s, 0, 0))
  }

  /** The brace opening `s` is closed by the '}' at index `n`, and not before. */
  predicate Closes(s: string, n: int) {
    1 <= n < |s| && s[n] == '}' && Open(s, n + 1) == 0
    && forall m :: 1 <= m <= n ==> Open(s, m) > 0
  }

  lemma {:induction false} DepthSnoc(s: string, i: nat)
    requires i < |s|
    ensures Open(s, i + 1) == Open(s, i) + Delta(s[i])
  {
    assert s[..i + 1][..i] == s[..i];
  }

  lemma {:induction false} BracketFromFirst(s: string, i: nat, depth: int)
    requires 1 <= i <= |s| && s[0] == '{'
    requires depth == Open(s, i)
    requires forall m :: 1 <= m <= i ==> Open(s, m) > 0
    ensures BracketFrom(s, i, depth).None? <==> forall m :: i < m <= |s| ==> Open(s, m) != 0
    ensures BracketFrom(s, i, depth).Some? ==>
      var t := BracketFrom(s, i, depth).value;
      Closes(s, |t| + 1) && t == s[1..|t| + 1]
    decreases |s| - i
  {
    if i < |s| {
      DepthSnoc(s, i);
      var d := depth + Delta(s[i]);
      assert Open(s, i) > 0;
      if d != 0 {
        BracketFromFirst(s, i + 1, d);
      }
    }
  }

  /**
   * Lines 28-40: IndexError on empty text, None unless the text opens with
   * '{'; otherwise the text strictly between that brace and the '}' that
   * closes it, or None when no prefix closes it.
   */
  lemma {:induction false} BracketedMeans(s: string)
    ensures Bracketed(s).Raise? <==> |s| == 0
    ensures |s| > 0 && s[0] != '{' ==> Bracketed(s) == Ok(None)
    ensures |s| > 0 && s[0] == '{' ==>
      (Bracketed(s) == Ok(None) <==> forall m :: 1 <= m <= |s| ==> Open(s, m) != 0)
    ensures Bracketed(s).Ok? && Bracketed(s).value.Some? ==>
      var t := Bracketed(s).value.value;
      s[0] == '{' && Closes(s, |t| + 1) && t == s[1..|t| + 1]
  {
    if |s| > 0 && s[0] == '{' {
      DepthSnoc(s, 0);
      assert s[..0] == [];
      BracketFromFirst(s, 1, 1);
    }
  }

  /** Lines 28-40: the loop as written. */
  method MatchBracket(s: string) returns (r: Outcome<Option<string>>)
    ensures r == Bracketed(s)
  {
    if |s| == 0 {
      return Raise(IndexError);
    }
    if s[0] != '{' {
      return Ok(None);
    }
    var open := 0;
    var i := 0;
    while i < |s|
      invariant 0 <= i <= |s|
      invariant BracketFrom(s, i, open) == BracketFrom(s, 0, 0)
    {
      if s[i] == '{' {
        open := open + 1;
      } else if s[i] == '}' {
        open := open - 1;
      }
      if open == 0 {
        return Ok(Some(Slice(s, 1, i)));
      }
      i := i + 1;
    }
    return Ok(None);
  }

  // ---------------------------------------------------------------------------
  // Indentation and command length (lines 42-63)

  /** Line 43: the number of leading whitespace characters. */
  function LeadingSpace(text: string): (n: nat)
    ensures n <= |text|
  {
    |text| - |LStrip(text)|
  }

  /** Line 43 counts the whitespace run that `lstrip` removes, and no more. */
  lemma LeadingSpaceMeans(text: string)
    ensures var n := LeadingSpace(text);
      text[n..] == LStrip(text) && (forall k :: 0 <= k < n ==> IsSpace(text[k]))
      && (n == |text| || !IsSpace(text[n]))
  {
  }

  /** Lines 57-63 from line `i` on, with `extent` characters counted so far. */
  function ExtentFrom(lines: seq<string>, indent: nat, i: nat, extent: int): (r: int)
    requires i <= |lines|
    ensures r >= extent
    decreases |lines| - i
  {
    if i == |lines| then extent
    else if LeadingSpace(lines[i]) != indent then ExtentFrom(lines, indent, i + 1, extent + |lines[i]| + 1)
    else extent + |lines[i]| + 1
  }

  /** The first line from `i` on indented like line 0, or the number of lines. */
  function SameIndent(lines: seq<string>, i: nat): (k: nat)
    requires 1 <= i <= |lines|
    ensures i <= k <= |lines|
    ensures forall j :: i <= j < k ==> LeadingSpace(lines[j]) != LeadingSpace(lines[0])
    ensures k < |lines| ==> LeadingSpace(lines[k]) == LeadingSpace(lines[0])
    decreases |lines| - i
  {
    if i == |lines| || LeadingSpace(lines[i]) == LeadingSpace(lines[0]) then i else SameIndent(lines, i + 1)
  }

  /** The lines a command spans: up to and including the first later line indented like line 0. */
  function Spanned(lines: seq<string>): (n: nat)
    requires |lines| >= 1
    ensures 1 <= n <= |lines|
  {
    EndFrom(lines, 1)
  }

  /** The length of the first `n` lines joined back with newlines. */
  function JoinedLength(lines: seq<string>, n: nat): (r: nat)
    requires n <= |lines|
    decreases n
  {
    if n == 0 then 0 else if n == 1 then |lines[0]| else JoinedLength(lines, n - 1) + 1 + |lines[n - 1]|
  }

  lemma {:induction false} JoinedLengthIsJoin(lines: seq<string>, n: nat)
    requires n <= |lines|
    ensures JoinedLength(lines, n) == |Join(lines[..n], "\n")|
    decreases n
  {
    if n == 1 {
      assert lines[..1] == [lines[0]];
    } else if n > 1 {
      JoinedLengthIsJoin(lines, n - 1);
      JoinSnoc(lines, "\n", n - 1);
    }
  }

  /** Where the command ends when the search for a line indented like line 0 starts at `i`. */
  function EndFrom(lines: seq<string>, i: nat): (k: nat)
    requires 1 <= i <= |lines|
    ensures i <= k <= |lines|
  {
    var k := SameIndent(lines, i);
    if k < |lines| then k + 1 else k
  }

  /** The loop of lines 57-63 counts the characters of the lines it spans, newlines included. */
  lemma {:induction false} ExtentCounts(lines: seq<string>, i: nat)
    requires 1 <= i <= |lines|
    ensures ExtentFrom(lines, LeadingSpace(lines[0]), i, JoinedLength(lines, i)) == JoinedLength(lines, EndFrom(lines, i))
    decreases |lines| - i
  {
    var ext := JoinedLength(lines, i);
    if i < |lines| {
      ExtentStep(lines, i, ext);
      assert JoinedLength(lines, i + 1) == ext + |lines[i]| + 1;
      if LeadingSpace(lines[i]) != LeadingSpace(lines[0]) {
        ExtentCounts(lines, i + 1);
        assert ExtentFrom(lines, LeadingSpace(lines[0]), i, ext) == JoinedLength(lines, EndFrom(lines, i));
      } else {
        assert ExtentFrom(lines, LeadingSpace(lines[0]), i, ext) == JoinedLength(lines, EndFrom(lines, i));
      }
    } else {
      assert EndFrom(lines, i) == i;
      assert ExtentFrom(lines, LeadingSpace(lines[0]), i, ext) == JoinedLength(lines, EndFrom(lines, i));
    }
  }

  /** One turn of the loop of lines 57-63: a line indented otherwise is counted and the loop goes on. */
  lemma ExtentStep(lines: seq<string>, i: nat, ext: int)
    requires 1 <= i < |lines|
    ensures var indent := LeadingSpace(lines[0]);
      if LeadingSpace(lines[i]) != indent then
        ExtentFrom(lines, indent, i, ext) == ExtentFrom(lines, indent, i + 1, ext + |lines[i]| + 1)
        && EndFrom(lines, i) == EndFrom(lines, i + 1)
      else
        ExtentFrom(lines, indent, i, ext) == ext + |lines[i]| + 1 && EndFrom(lines, i) == i + 1
  {
  }

  /** Lines 49-63: `determineCommandLength`. */
  function CommandLength(text: string): (r: Outcome<int>)
    ensures r.Raise? <==> |text| == 0 || text[0] == '\n'
    ensures r.Ok? ==> 0 < r.value <= |text|
  {
    if |text| == 0 then Raise(IndexError)
    else if text[0] == '\n' then Raise(ValueError)
    else
      var lines := SplitChar(text, '\n');
      var n := ExtentFrom(lines, LeadingSpace(lines[0]), 1, |lines[0]|);
      assert n <= |text| && 0 < n by {
        ExtentCounts(lines, 1);
        JoinedLengthIsJoin(lines, Spanned(lines));
        JoinSplitChar(text, '\n');
        JoinPrefix(lines, "\n", Spanned(lines));
      }
      Ok(n)
  }

  /**
   * Lines 49-63: a leading newline raises ValueError; otherwise the length is
   * that of the lines up to and including the first later line indented like
   * the first one, or of the whole text, and those lines begin the text.
   */
  lemma {:induction false} CommandLengthMeans(text: string)
    requires |text| > 0
    ensures text[0] == '\n' ==> CommandLength(text) == Raise(ValueError)
    ensures text[0] != '\n' ==>
      var lines := SplitChar(text, '\n');
      var cmd := Join(lines[..Spanned(lines)], "\n");
      CommandLength(text) == Ok(|cmd|) && StartsWith(text, cmd)
  {
    if text[0] != '\n' {
      var lines := SplitChar(text, '\n');
      ExtentCounts(lines, 1);
      JoinedLengthIsJoin(lines, Spanned(lines));
      JoinSplitChar(text, '\n');
      JoinPrefix(lines, "\n", Spanned(lines));
    }
  }

  /** The length a text with a first line has: the loop's count from line 1 on. */
  lemma CommandLengthOk(text: string)
    requires |text| > 0 && text[0] != '\n'
    ensures var lines := SplitChar(text, '\n');
      CommandLength(text) == Ok(ExtentFrom(lines, LeadingSpace(lines[0]), 1, |lines[0]|))
  {
  }

  /** Lines 49-63: the loop as written. */
  method DetermineCommandLength(text: string) returns (r: Outcome<int>)
    ensures r == CommandLength(text)
  {
    if |text| == 0 {
      return Raise(IndexError);
    }
    if text[0] == '\n' {
      return Raise(ValueError);
    }
    var lines := SplitChar(text, '\n');
    CommandLengthOk(text);
    var n := CountLines(lines);
    return Ok(n);
  }

  /** Lines 57-63: the loop over the lines after the first. */
  method CountLines(lines: seq<string>) returns (n: int)
    requires |lines| >= 1
    ensures n == ExtentFrom(lines, LeadingSpace(lines[0]), 1, |lines[0]|)
  {
    var indent := LeadingSpace(lines[0]);
    var extent := |lines[0]|;
    ghost var total := ExtentFrom(lines, indent, 1, extent);
    var i := 1;
    while i < |lines|
      invariant 1 <= i <= |lines|
      invariant ExtentFrom(lines, indent, i, extent) == total
    {
      ExtentStep(lines, i, extent);
      if LeadingSpace(lines[i]) != indent {
        extent := extent + |lines[i]| + 1;
      } else {
        extent := extent + |lines[i]| + 1;
        return extent;
      }
      i := i + 1;
    }
    return extent;
  }

  // ---------------------------------------------------------------------------
  // The option scanner (lines 65-117)

  /** What the scanner is in the middle of: nothing, a braced argument, a plain one. */
  datatype Mode = Idle | InBracket | InSimple

  /** The scanner's variables: mode, brace depth, the argument read so far, names and arguments found. */
  datatype Scan = Scan(mode: Mode, depth: int, cur: string, names: seq<string>, args: seq<string>)

  const Start := Scan(Idle, 0, [], [], [])

  /** Every name but the one being read has its argument. */
  predicate Paired(st: Scan) {
    if st.mode == Idle then |st.names| == |st.args| else |st.names| == |st.args| + 1
  }

  /** Line 81: `cur[1:-1]`. */
  function Unbraced(cur: string): (r: string)
    ensures |r| <= |cur|
    ensures |cur| >= 2 ==> r == cur[1..|cur| - 1]
    ensures |cur| < 2 ==> r == []
  {
    assert Bound(-1, |cur|) == if |cur| == 0 then 0 else |cur| - 1;
    Slice(cur, 1, -1)
  }

  /**
   * The first `c` at or after `j`, looking character by character as the
   * loops of lines 99-111 and 158-162 do; -1 when the text runs out.
   */
  function CharFrom(text: string, c: char, j: nat): (r: int)
    ensures r == -1 || (j <= r < |text| && text[r] == c)
    ensures forall t :: j <= t < |text| && (r == -1 || t < r) ==> text[t] != c
    decreases |text| - j
  {
    if j >= |text| then -1 else if text[j] == c then j else CharFrom(text, c, j + 1)
  }

  /** Lines 75-115: one turn of the loop at index `i`, giving the next index and state. */
  function Step(text: string, i: nat, st: Scan): (r: Outcome<(nat, Scan)>)
    requires i < |text|
    ensures r.Raise? ==> r.error == IndexError
    ensures r.Ok? ==> i < r.value.0 <= |text|
  {
    match st.mode
    case InBracket =>
      if text[i] == '}' then
        if st.depth - 1 == 0 then Ok((i + 1, Scan(Idle, 0, [], st.names, st.args + [Unbraced(st.cur + "}")])))
        else Ok((i + 1, st.(depth := st.depth - 1, cur := st.cur + "}")))
      else if text[i] == '{' then Ok((i + 1, st.(depth := st.depth + 1, cur := st.cur + "{")))
      else Ok((i + 1, st.(cur := st.cur + [text[i]])))
    case InSimple =>
      if text[i] == ' ' then Ok((i + 1, st.(mode := Idle, cur := [], args := st.args + [st.cur])))
      else Ok((i + 1, st.(cur := st.cur + [text[i]])))
    case Idle =>
      if text[i] != '-' then Ok((i + 1, st))
      else
        var e := CharFrom(text, ' ', i + 1);
        if e < 0 || e + 1 >= |text| then Raise(IndexError)
        else
          var names := st.names + [text[i + 1..e]];
          if text[e + 1] == '{' then Ok((e + 1, st.(mode := InBracket, depth := 0, names := names)))
          else Ok((e + 1, st.(mode := InSimple, names := names)))
  }

  /** Lines 74-115 from index `i` on. */
  function ArgsFrom(text: string, i: nat, st: Scan): (r: Outcome<Scan>)
    requires i <= |text|
    ensures r.Raise? ==> r.error == IndexError
    decreases |text| - i
  {
    if i == |text| then Ok(st)
    else
      match Step(text, i, st)
      case Raise(e) => Raise(e)
      case Ok(next) => ArgsFrom(text, next.0, next.1)
  }

  /**
   * One turn keeps every name but the last paired with its argument, and a
   * new argument is made of the characters read so far.
   */
  lemma StepKeeps(text: string, i: nat, st: Scan)
    requires i < |text| && Step(text, i, st).Ok?
    ensures var (j, next) := Step(text, i, st).value;
      |next.cur| <= |st.cur| + j - i
      && (Paired(st) ==> Paired(next))
      && forall a :: a in next.args ==> a in st.args || |a| <= |st.cur| + j - i
  {
  }

  /** The scan from `i` keeps the pairing, and no argument is longer than what is left to read. */
  lemma {:induction false} ArgsFromKeeps(text: string, i: nat, st: Scan)
    requires i <= |text| && ArgsFrom(text, i, st).Ok?
    ensures Paired(st) ==> Paired(ArgsFrom(text, i, st).value)
    ensures forall a :: a in ArgsFrom(text, i, st).value.args ==> a in st.args || |a| <= |st.cur| + |text| - i
    decreases |text| - i
  {
    if i < |text| {
      var (j, next) := Step(text, i, st).value;
      StepKeeps(text, i, st);
      ArgsFromKeeps(text, j, next);
    }
  }

  /** Lines 65-117: `extractAllArgs`, giving the names, the arguments and the remaining text. */
  function AllArgs(text: string): (r: Outcome<(seq<string>, seq<string>, string)>)
    ensures r.Raise? ==> r.error == IndexError
    ensures r.Ok? ==> r.value.2 == []
    ensures r.Ok? ==> |r.value.1| <= |r.value.0| <= |r.value.1| + 1
    ensures r.Ok? ==> forall a :: a in r.value.1 ==> |a| <= |text|
  {
    match ArgsFrom(text, 0, Start)
    case Raise(e) => Raise(e)
    case Ok(st) => ArgsFromKeeps(text, 0, Start); Ok((st.names, st.args, []))
  }

  /** A text with braces that never close below the level they start at. */
  predicate Balanced(b: string) {
    Depth(b) == 0 && forall j :: 0 <= j <= |b| ==> Depth(b[..j]) >= 0
  }

  /** Inside a plain argument: the characters up to the next space join it. */
  lemma {:induction false} SimpleRun(text: string, j: nat, f: nat, st: Scan)
    requires st.mode == InSimple && j <= f < |text| && text[f] == ' '
    requires forall t :: j <= t < f ==> text[t] != ' '
    ensures ArgsFrom(text, j, st) == ArgsFrom(text, f + 1, st.(mode := Idle, cur := [], args := st.args + [st.cur + text[j..f]]))
    decreases f - j
  {
    if j == f {
      assert st.cur + text[j..f] == st.cur;
    } else {
      assert st.cur + [text[j]] + text[j + 1..f] == st.cur + text[j..f];
      SimpleRun(text, j + 1, f, st.(cur := st.cur + [text[j]]));
    }
  }

  /** Braces left open between the brace at `p` and index `t`. */
  function Inside(s: string, p: nat, t: nat): int
    requires p < t <= |s|
  {
    Depth(s[p + 1..t])
  }

  lemma {:induction false} InsideSnoc(s: string, p: nat, j: nat)
    requires p < j < |s|
    ensures Inside(s, p, j + 1) == Inside(s, p, j) + Delta(s[j])
  {
    assert s[p + 1..j + 1][..j - p - 1] == s[p + 1..j];
    assert s[p + 1..j + 1][j - p - 1] == s[j];
  }

  /** Inside a braced argument opened at `p`: the scan runs to the '}' at `f` that balances it. */
  lemma {:induction false} BracketRun(text: string, p: nat, j: nat, f: nat, st: Scan)
    requires p < j <= f < |text| && text[p] == '{' && text[f] == '}'
    requires st.mode == InBracket && st.depth == 1 + Inside(text, p, j) && st.cur == text[p..j]
    requires Inside(text, p, f) == 0
    requires forall t :: p < t <= f ==> Inside(text, p, t) >= 0
    ensures ArgsFrom(text, j, st) == ArgsFrom(text, f + 1, Scan(Idle, 0, [], st.names, st.args + [text[p + 1..f]]))
    decreases f - j
  {
    if j == f {
      assert st.cur + "}" == text[p..f + 1];
      assert Unbraced(text[p..f + 1]) == text[p + 1..f];
    } else {
      InsideSnoc(text, p, j);
      assert text[p..j] + [text[j]] == text[p..j + 1];
      assert Inside(text, p, j + 1) >= 0;
      BracketRun(text, p, j + 1, f, st.(depth := 1 + Inside(text, p, j + 1), cur := text[p..j + 1]));
    }
  }

  /** The pieces of an occurrence of `-name ` at `i`. */
  lemma {:induction false} NamePieces(text: string, i: nat, name: string, tail: string)
    requires OccursAt(text, "-" + name + " " + tail, i)
    ensures text[i] == '-' && text[i + 1..i + 1 + |name|] == name && text[i + 1 + |name|] == ' '
    ensures text[i + 2 + |name|..i + 2 + |name| + |tail|] == tail
  {
    var p := "-" + name + " " + tail;
    assert text[i..i + |p|] == p;
    assert text[i] == p[0] == '-' by {
      assert text[i] == text[i..i + |p|][0];
    }
    assert text[i + 1 + |name|] == p[1 + |name|] == ' ' by {
      assert text[i + 1 + |name|] == text[i..i + |p|][1 + |name|];
    }
    forall t | 0 <= t < |name| ensures text[i + 1 + t] == name[t] {
      assert text[i + 1 + t] == text[i..i + |p|][1 + t];
      assert p[1 + t] == name[t];
    }
    forall t | 0 <= t < |tail| ensures text[i + 2 + |name| + t] == tail[t] {
      assert text[i + 2 + |name| + t] == text[i..i + |p|][2 + |name| + t];
      assert p[2 + |name| + t] == tail[t];
    }
    assert text[i + 1..i + 1 + |name|] == name;
    assert text[i + 2 + |name|..i + 2 + |name| + |tail|] == tail;
  }

  /** Lines 98-111: a '-' seen while idle starts a name that runs to the next space. */
  lemma {:induction false} DashStep(text: string, i: nat, st: Scan, e: nat)
    requires st.mode == Idle && i < e && e + 1 < |text| && text[i] == '-' && text[e] == ' '
    requires forall j :: i + 1 <= j < e ==> text[j] != ' '
    ensures Step(text, i, st)
         == Ok((e + 1, if text[e + 1] == '{' then st.(mode := InBracket, depth := 0, names := st.names + [text[i + 1..e]])
                       else st.(mode := InSimple, names := st.names + [text[i + 1..e]])))
  {
  }

  /** Lines 99-104: a name that no space ends runs off the text. */
  lemma NameUnended(text: string, i: nat, st: Scan)
    requires st.mode == Idle && i < |text| && text[i] == '-'
    requires forall j :: i + 1 <= j < |text| ==> text[j] != ' '
    ensures ArgsFrom(text, i, st) == Raise(IndexError)
  {
    assert CharFrom(text, ' ', i + 1) == -1;
  }

  /** Line 103: a name ended by the last character leaves nothing to look at after it. */
  lemma NameAtEnd(text: string, i: nat, st: Scan)
    requires st.mode == Idle && i + 1 < |text| && text[i] == '-' && text[|text| - 1] == ' '
    requires forall j :: i + 1 <= j < |text| - 1 ==> text[j] != ' '
    ensures ArgsFrom(text, i, st) == Raise(IndexError)
  {
    assert CharFrom(text, ' ', i + 1) == |text| - 1;
  }

  /** One turn of the loop, then the rest. */
  lemma {:induction false} Advance(text: string, i: nat, st: Scan)
    requires i < |text| && Step(text, i, st).Ok?
    ensures ArgsFrom(text, i, st) == ArgsFrom(text, Step(text, i, st).value.0, Step(text, i, st).value.1)
  {
  }

  /** `-name ` at `i`: the name ends at the space after it. */
  lemma {:induction false} NameEnds(text: string, i: nat, name: string, tail: string)
    requires OccursAt(text, "-" + name + " " + tail, i) && ' ' !in name
    ensures text[i] == '-' && text[i + 1 + |name|] == ' ' && text[i + 1..i + 1 + |name|] == name
    ensures forall j :: i + 1 <= j < i + 1 + |name| ==> text[j] != ' '
    ensures text[i + 2 + |name|..i + 2 + |name| + |tail|] == tail
  {
    NamePieces(text, i, name, tail);
    forall j | i + 1 <= j < i + 1 + |name| ensures text[j] != ' ' {
      assert text[j] == name[j - i - 1];
    }
  }

  /** Two scanner states that agree field by field scan alike. */
  lemma {:induction false} SameScan(text: string, j: nat, a: Scan, b: Scan)
    requires j <= |text| && a.mode == b.mode && a.depth == b.depth && a.cur == b.cur
    requires a.names == b.names && a.args == b.args
    ensures ArgsFrom(text, j, a) == ArgsFrom(text, j, b)
  {
    assert a == b;
  }

  /** Lines 98-111 and 90-96 by position: a name ending at `e`, a plain argument ending at `f`. */
  lemma {:induction false} SimpleAt(text: string, i: nat, e: nat, f: nat, n: nat, st: Scan, name: string, value: string)
    requires st.mode == Idle && st.cur == [] && i < e < f < |text| && n == f + 1
    requires text[i] == '-' && text[e] == ' ' && text[f] == ' ' && text[e + 1] != '{'
    requires text[i + 1..e] == name && text[e + 1..f] == value
    requires forall j :: i + 1 <= j < e ==> text[j] != ' '
    requires forall j :: e + 1 <= j < f ==> text[j] != ' '
    ensures ArgsFrom(text, i, st) == ArgsFrom(text, n, st.(names := st.names + [name], args := st.args + [value]))
  {
    var st1 := st.(mode := InSimple, names := st.names + [name]);
    ghost var after := st1.(mode := Idle, cur := [], args := st1.args + [st1.cur + text[e + 1..f]]);
    ghost var goal := st.(names := st.names + [name], args := st.args + [value]);
    assert ArgsFrom(text, i, st) == ArgsFrom(text, e + 1, st1) by {
      DashStep(text, i, st, e);
      Advance(text, i, st);
    }
    assert ArgsFrom(text, e + 1, st1) == ArgsFrom(text, f + 1, after) by {
      SimpleRun(text, e + 1, f, st1);
    }
    assert st1.cur + text[e + 1..f] == value;
    SameScan(text, n, after, goal);
  }

  /** The positions inside an occurrence of `-name value ` at `i`. */
  lemma {:induction false} SimplePieces(text: string, i: nat, name: string, value: string)
    requires OccursAt(text, "-" + name + " " + value + " ", i)
    requires ' ' !in name && ' ' !in value && (value == [] || value[0] != '{')
    ensures var e := i + 1 + |name|; var f := e + 1 + |value|;
      f < |text| && text[i] == '-' && text[e] == ' ' && text[f] == ' ' && text[e + 1] != '{'
      && text[i + 1..e] == name && text[e + 1..f] == value
      && (forall j :: i + 1 <= j < e ==> text[j] != ' ')
      && (forall j :: e + 1 <= j < f ==> text[j] != ' ')
  {
    assert "-" + name + " " + value + " " == "-" + name + " " + (value + " ");
    NameEnds(text, i, name, value + " ");
    var e := i + 1 + |name|;
    var f := e + 1 + |value|;
    assert text[e + 1..f] == value && text[f] == ' ' by {
      assert text[e + 1..f + 1][..|value|] == text[e + 1..f];
      assert (value + " ")[..|value|] == value;
    }
    forall t | e + 1 <= t < f ensures text[t] != ' ' {
      assert text[t] == value[t - e - 1];
    }
    assert text[e + 1] != '{' by {
      assert text[e + 1] == text[e + 1..f + 1][0];
    }
  }

  /**
   * Lines 98-111 and 90-96: from the idle state, `-name value ` records the
   * name with the plain argument `value` and is idle again after the space.
   */
  lemma {:induction false} SimpleArg(text: string, i: nat, st: Scan, name: string, value: string)
    requires st.mode == Idle && st.cur == []
    requires OccursAt(text, "-" + name + " " + value + " ", i)
    requires ' ' !in name && ' ' !in value && (value == [] || value[0] != '{')
    ensures ArgsFrom(text, i, st)
         == ArgsFrom(text, i + |name| + |value| + 3, st.(names := st.names + [name], args := st.args + [value]))
  {
    SimplePieces(text, i, name, value);
    SimpleAt(text, i, i + 1 + |name|, i + 2 + |name| + |value|, i + |name| + |value| + 3, st, name, value);
  }

  /** Lines 85-87: entering a braced argument at its '{'. */
  lemma {:induction false} OpenStep(text: string, p: nat, st: Scan)
    requires p < |text| && text[p] == '{' && st.mode == InBracket && st.depth == 0 && st.cur == []
    ensures ArgsFrom(text, p, st) == ArgsFrom(text, p + 1, st.(depth := 1, cur := text[p..p + 1]))
  {
    assert [] + "{" == text[p..p + 1];
  }

  /** Lines 98-111 and 75-89 by position: a name ending at `e`, a braced argument from `e + 1` to `f`. */
  lemma {:induction false} BracketAt(text: string, i: nat, e: nat, p: nat, f: nat, n: nat, st: Scan, name: string, body: string)
    requires st.mode == Idle && st.cur == [] && i < e && p == e + 1 && p < f < |text| && n == f + 1
    requires text[i] == '-' && text[e] == ' ' && text[p] == '{' && text[f] == '}'
    requires text[i + 1..e] == name && text[p + 1..f] == body
    requires forall j :: i + 1 <= j < e ==> text[j] != ' '
    requires Inside(text, p, f) == 0 && forall t :: p < t <= f ==> Inside(text, p, t) >= 0
    ensures ArgsFrom(text, i, st) == ArgsFrom(text, n, Scan(Idle, 0, [], st.names + [name], st.args + [body]))
  {
    var st1 := st.(mode := InBracket, depth := 0, names := st.names + [name]);
    var st2 := st1.(depth := 1, cur := text[p..p + 1]);
    ghost var after := Scan(Idle, 0, [], st1.names, st1.args + [text[p + 1..f]]);
    ghost var goal := Scan(Idle, 0, [], st.names + [name], st.args + [body]);
    assert ArgsFrom(text, i, st) == ArgsFrom(text, p, st1) by {
      DashStep(text, i, st, e);
      Advance(text, i, st);
    }
    assert ArgsFrom(text, p, st1) == ArgsFrom(text, p + 1, st2) by {
      OpenStep(text, p, st1);
    }
    assert ArgsFrom(text, p + 1, st2) == ArgsFrom(text, f + 1, after) by {
      assert Inside(text, p, p + 1) == 0 by {
        assert text[p + 1..p + 1] == [];
      }
      BracketRun(text, p, p + 1, f, st2);
    }
    SameScan(text, n, after, goal);
  }

  /** The positions inside an occurrence of `-name {body}` at `i`. */
  lemma {:induction false} BracketPieces(text: string, i: nat, name: string, body: string)
    requires OccursAt(text, "-" + name + " {" + body + "}", i)
    requires ' ' !in name && Balanced(body)
    ensures var e := i + 1 + |name|; var p := e + 1; var f := p + 1 + |body|;
      f < |text| && text[i] == '-' && text[e] == ' ' && text[p] == '{' && text[f] == '}'
      && text[i + 1..e] == name && text[p + 1..f] == body
      && (forall j :: i + 1 <= j < e ==> text[j] != ' ')
      && Inside(text, p, f) == 0 && (forall t :: p < t <= f ==> Inside(text, p, t) >= 0)
  {
    var braced := "{" + body + "}";
    assert "-" + name + " {" + body + "}" == "-" + name + " " + braced;
    NameEnds(text, i, name, braced);
    var e := i + 1 + |name|;
    var p := e + 1;
    var f := p + 1 + |body|;
    assert text[p..f + 1] == braced;
    assert text[p] == '{' && text[f] == '}' by {
      assert text[p] == text[p..f + 1][0];
      assert text[f] == text[p..f + 1][|body| + 1];
    }
    forall t | 0 <= t < |body| ensures text[p + 1 + t] == body[t] {
      assert text[p + 1 + t] == text[p..f + 1][t + 1];
      assert braced[t + 1] == body[t];
    }
    assert text[p + 1..f] == body;
    BalancedInside(text, p, f, body);
  }

  /**
   * Lines 98-111 and 75-89: from the idle state, `-name {body}` with balanced
   * braces in `body` records the name with `body`, outer braces stripped.
   */
  lemma {:induction false} BracketArg(text: string, i: nat, st: Scan, name: string, body: string)
    requires st.mode == Idle && st.cur == []
    requires OccursAt(text, "-" + name + " {" + body + "}", i)
    requires ' ' !in name && Balanced(body)
    ensures ArgsFrom(text, i, st)
         == ArgsFrom(text, i + |name| + |body| + 4, Scan(Idle, 0, [], st.names + [name], st.args + [body]))
  {
    BracketPieces(text, i, name, body);
    var e := i + 1 + |name|;
    BracketAt(text, i, e, e + 1, e + 2 + |body|, i + |name| + |body| + 4, st, name, body);
  }

  lemma {:induction false} BalancedInside(text: string, p: nat, f: nat, body: string)
    requires p < f <= |text| && text[p + 1..f] == body && Balanced(body)
    ensures Inside(text, p, f) == 0 && forall t :: p < t <= f ==> Inside(text, p, t) >= 0
  {
    forall t | p < t <= f ensures Inside(text, p, t) >= 0 {
      assert text[p + 1..t] == body[..t - p - 1];
    }
  }

  // ---------------------------------------------------------------------------
  // Options (lines 119-125)

  /** Lines 122-123: names[k] bound to args[k], in order. */
  function Bind(names: seq<string>, args: seq<string>): (m: map<string, string>)
    requires |names| <= |args|
    ensures forall k :: k in m <==> k in names
    ensures forall k :: k in m ==> m[k] in args
    decreases |names|
  {
    if |names| == 0 then map[]
    else
      var n := |names| - 1;
      assert names == names[..n] + [names[n]];
      Bind(names[..n], args)[names[n] := args[n]]
  }

  /** Lines 122-123: a name is bound to the argument of its last occurrence. */
  lemma {:induction false} BindLast(names: seq<string>, args: seq<string>, j: nat)
    requires j < |names| <= |args|
    requires forall l :: j < l < |names| ==> names[l] != names[j]
    ensures Bind(names, args)[names[j]] == args[j]
    decreases |names|
  {
    var n := |names| - 1;
    if j < n {
      assert names[..n][j] == names[j];
      BindLast(names[..n], args, j);
    }
  }

  /**
   * Lines 119-125: `parseOptions`.  The scan's IndexError, or IndexError when
   * the last name has no argument; otherwise every name bound to its argument.
   */
  function Options(text: string): (r: Outcome<map<string, string>>)
    ensures r.Raise? <==> AllArgs(text).Raise? || |AllArgs(text).value.1| < |AllArgs(text).value.0|
    ensures r.Raise? ==> r.error == IndexError
    ensures r.Ok? ==> r.value == Bind(AllArgs(text).value.0, AllArgs(text).value.1)
    ensures r.Ok? ==> forall k :: k in r.value ==> |r.value[k]| <= |text|
  {
    match AllArgs(text)
    case Raise(e) => Raise(e)
    case Ok(found) =>
      if |found.1| < |found.0| then Raise(IndexError) else Ok(Bind(found.0, found.1))
  }

  /** A final plain argument with no space after it is never recorded, so the options raise. */
  lemma {:induction false} UnterminatedLast()
    ensures AllArgs("-a x") == Ok((["a"], [], []))
    ensures Options("-a x") == Raise(IndexError)
  {
    var text := "-a x";
    var st := Start.(mode := InSimple, names := ["a"]);
    assert text[1..2] == "a";
    assert ArgsFrom(text, 0, Start) == ArgsFrom(text, 3, st) by {
      assert text[0] == '-' && text[1] == 'a' && text[2] == ' ' && text[3] == 'x';
      DashStep(text, 0, Start, 2);
      assert Start.names + [text[1..2]] == ["a"];
      assert Step(text, 0, Start) == Ok((3, st));
      Advance(text, 0, Start);
    }
    assert ArgsFrom(text, 3, st) == Ok(st.(cur := "x")) by {
      assert text[3] == 'x' && st.cur + [text[3]] == "x";
      assert Step(text, 3, st) == Ok((4, st.(cur := "x")));
      Advance(text, 3, st);
      assert ArgsFrom(text, 4, st.(cur := "x")) == Ok(st.(cur := "x"));
    }
  }

  /** A plain and a braced option, each bound to its argument. */
  lemma {:induction false} TwoOptions()
    ensures Options("-a x -b {c {d}} ") == Ok(map["a" := "x", "b" := "c {d}"])
  {
    var text := "-a x -b {c {d}} ";
    var fin := Scan(Idle, 0, [], ["a", "b"], ["x", "c {d}"]);
    FirstOfTwo(text);
    SecondOfTwo(text);
    LastOfTwo(text);
    assert AllArgs(text) == Ok((fin.names, fin.args, []));
    assert Bind(fin.names, fin.args) == map["a" := "x", "b" := "c {d}"] by {
      assert fin.names[..1] == ["a"];
      assert Bind(["a"], fin.args) == map["a" := "x"];
    }
  }

  lemma FirstOfTwo(text: string)
    requires text == "-a x " + "-b {c {d}}" + " "
    ensures ArgsFrom(text, 0, Start) == ArgsFrom(text, 5, Start.(names := ["a"], args := ["x"]))
  {
    OccursAtMiddle([], "-a x ", "-b {c {d}}" + " ");
    assert [] + "-a x " + ("-b {c {d}}" + " ") == text;
    SimpleArg(text, 0, Start, "a", "x");
    assert Start.(names := Start.names + ["a"], args := Start.args + ["x"]) == Start.(names := ["a"], args := ["x"]);
  }

  lemma SecondOfTwo(text: string)
    requires text == "-a x " + "-b {c {d}}" + " "
    ensures ArgsFrom(text, 5, Start.(names := ["a"], args := ["x"]))
         == ArgsFrom(text, 15, Scan(Idle, 0, [], ["a", "b"], ["x", "c {d}"]))
  {
    var st := Start.(names := ["a"], args := ["x"]);
    NestedBalanced();
    OccursAtMiddle("-a x ", "-b {c {d}}", " ");
    BracketArg(text, 5, st, "b", "c {d}");
    assert Scan(Idle, 0, [], st.names + ["b"], st.args + ["c {d}"]) == Scan(Idle, 0, [], ["a", "b"], ["x", "c {d}"]);
  }

  lemma LastOfTwo(text: string)
    requires text == "-a x " + "-b {c {d}}" + " "
    ensures ArgsFrom(text, 15, Scan(Idle, 0, [], ["a", "b"], ["x", "c {d}"])) == Ok(Scan(Idle, 0, [], ["a", "b"], ["x", "c {d}"]))
  {
    var fin := Scan(Idle, 0, [], ["a", "b"], ["x", "c {d}"]);
    assert |text| == 16 && text[15] == ' ';
    assert Step(text, 15, fin) == Ok((16, fin));
    Advance(text, 15, fin);
  }

  /** The braces of `c {d}` never close below where they start. */
  lemma NestedBalanced()
    ensures Balanced("c {d}")
  {
    var b := "c {d}";
    assert Open(b, 0) == 0;
    DepthSnoc(b, 0);
    DepthSnoc(b, 1);
    DepthSnoc(b, 2);
    DepthSnoc(b, 3);
    DepthSnoc(b, 4);
    forall j | 0 <= j <= |b| ensures Depth(b[..j]) >= 0 {
      assert Depth(b[..j]) == Open(b, j);
    }
    assert b[..5] == b;
  }

  /** Lines 65-117: the loop as written. */
  method ExtractAllArgs(text: string) returns (r: Outcome<(seq<string>, seq<string>, string)>)
    ensures r == AllArgs(text)
  {
    var indent := 0;
    var bracket, simple := false, false;
    var args: seq<string> := [];
    var names: seq<string> := [];
    var cur := "";
    var i := 0;
    while i < |text|
      invariant 0 <= i <= |text| && !(bracket && simple)
      invariant ArgsFrom(text, i, Scan(ModeOf(bracket, simple), indent, cur, names, args)) == ArgsFrom(text, 0, Start)
      decreases |text| - i
    {
      ghost var before := Scan(ModeOf(bracket, simple), indent, cur, names, args);
      if bracket {
        Advance(text, i, before);
        if text[i] == '}' {
          indent := indent - 1;
          cur := cur + [text[i]];
          if indent == 0 {
            args := args + [Unbraced(cur)];
            cur := "";
            bracket := false;
            indent := 0;
          }
        } else if text[i] == '{' {
          cur := cur + [text[i]];
          indent := indent + 1;
        } else {
          cur := cur + [text[i]];
        }
      } else if simple {
        Advance(text, i, before);
        if text[i] == ' ' {
          args := args + [cur];
          cur := "";
          simple := false;
        } else {
          cur := cur + [text[i]];
        }
      } else if text[i] == '-' {
        ghost var st := Scan(Idle, indent, cur, names, args);
        ghost var i0 := i;
        var counter := 1;
        var name := "";
        while true
          invariant i == i0 && !bracket && !simple && Scan(Idle, indent, cur, names, args) == st
          invariant 1 <= counter && i + counter <= |text|
          invariant name == text[i + 1..i + counter]
          invariant forall j :: i + 1 <= j < i + counter ==> text[j] != ' '
          decreases |text| - (i + counter)
        {
          if i + counter == |text| {
            NameUnended(text, i, st);
            return Raise(IndexError);
          }
          if text[i + counter] == ' ' {
            names := names + [name];
            if i + counter + 1 == |text| {
              NameAtEnd(text, i, st);
              return Raise(IndexError);
            }
            DashStep(text, i, st, i + counter);
            Advance(text, i, st);
            if text[i + counter + 1] == '{' {
              indent := 0;
              bracket := true;
            } else {
              simple := true;
            }
            i := i + counter;
            break;
          }
          name := name + [text[i + counter]];
          counter := counter + 1;
        }
      } else {
        Advance(text, i, before);
      }
      i := i + 1;
    }
    return Ok((names, args, ""));
  }

  function ModeOf(bracket: bool, simple: bool): Mode {
    if bracket then InBracket else if simple then InSimple else Idle
  }

  /** Lines 119-125: the loop as written. */
  method ParseOptions(text: string) returns (r: Outcome<map<string, string>>)
    ensures r == Options(text)
  {
    var found := ExtractAllArgs(text);
    if found.Raise? {
      return Raise(found.error);
    }
    var names, opts := found.value.0, found.value.1;
    var result := map[];
    var i := 0;
    while i < |names|
      invariant 0 <= i <= |names| && i <= |opts|
      invariant result == Bind(names[..i], opts)
    {
      if i == |opts| {
        return Raise(IndexError);
      }
      assert names[..i + 1][..i] == names[..i];
      result := result[names[i] := opts[i]];
      i := i + 1;
    }
    assert names[..i] == names;
    return Ok(result);
  }
}
