/** `sanitizeComposeFile` (internal/engine/compose.go): one pass over the lines of a compose file that
    drops the project name and the host ports and turns container names into hostnames. */
module ComposeSanitizer {
  import opened Text

  function Indent(line: string): (n: nat)
    ensures n <= |line|
  {
    if line != "" && (line[0] == ' ' || line[0] == '\t') then 1 + Indent(line[1..]) else 0
  }

  lemma {:induction false} IndentIsBlank(line: string)
    ensures forall k :: 0 <= k < Indent(line) ==> line[k] == ' ' || line[k] == '\t'
  {
    if line != "" && (line[0] == ' ' || line[0] == '\t') {
      IndentIsBlank(line[1..]);
    }
  }

  /** `strings.Trim(s, "\"'")`. */
  function TrimQuotes(s: string): string {
    if s == "" then s
    else if s[0] == '"' || s[0] == '\'' then TrimQuotes(s[1..])
    else if s[|s| - 1] == '"' || s[|s| - 1] == '\'' then TrimQuotes(s[..|s| - 1])
    else s
  }

  lemma {:induction false} TrimQuotesFacts(s: string)
    ensures forall c :: c in TrimQuotes(s) ==> c in s
  {
    if s == "" {
    } else if s[0] == '"' || s[0] == '\'' {
      TrimQuotesFacts(s[1..]);
    } else if s[|s| - 1] == '"' || s[|s| - 1] == '\'' {
      TrimQuotesFacts(s[..|s| - 1]);
    }
  }

  /** What a line is by itself; the pass adds only what it remembers from the lines before. */
  datatype Kind = ProjectName | ContainerName | BlockPorts | FlowPorts | InlinePorts | Other

  function KindOf(line: string): Kind {
    var t := Trim(line);
    if HasPrefix(line, "name:") then ProjectName
    else if HasPrefix(t, "container_name:") then ContainerName
    else if HasPrefix(t, "ports:") then
      var rest := Trim(t[6..]);
      if rest == "" || rest[0] == '#' then BlockPorts
      else if rest[0] == '[' && ']' !in rest then FlowPorts
      else InlinePorts
    else Other
  }

  /** The text after a key of `n` characters, or nothing. */
  function After(t: string, n: nat): string { if n <= |t| then Trim(t[n..]) else "" }

  function HostnameLine(line: string): string {
    line[..Indent(line)] + "hostname: " + TrimQuotes(After(Trim(line), 15))
  }

  /** A line that a `ports:` block at this indent takes as one of its items. */
  predicate Swallows(portsIndent: nat, line: string) {
    var t := Trim(line);
    t == "" || Indent(line) > portsIndent || t[0] == '-'
  }

  /** The locals of the loop. */
  datatype Scan = Scan(
    inPorts: bool,
    inFlowPorts: bool,
    portsIndent: nat,
    serviceIndent: int,
    currentService: string,
    out: seq<string>)

  const START := Scan(false, false, 0, -1, "", [])

  function ServiceIndent(st: Scan, line: string): int {
    var t := Trim(line);
    if t == "services:" then -1
    else if st.serviceIndent == -1 && t != "" && t[0] != '#' && st.out != [] && Trim(st.out[|st.out| - 1]) == "services:"
    then Indent(line)
    else st.serviceIndent
  }

  function CurrentService(st: Scan, line: string): string {
    var t := Trim(line);
    if ServiceIndent(st, line) == Indent(line) && t != "" && t[|t| - 1] == ':' && ' ' !in t then t[..|t| - 1]
    else st.currentService
  }

  function Step(before: Scan, line: string, withHostname: set<string>): Scan {
    var st := before.(serviceIndent := ServiceIndent(before, line), currentService := CurrentService(before, line));
    match KindOf(line)
    case ProjectName => st
    case ContainerName => if st.currentService in withHostname then st else st.(out := st.out + [HostnameLine(line)])
    case BlockPorts => st.(inPorts := true, portsIndent := Indent(line))
    case FlowPorts => st.(inFlowPorts := true)
    case InlinePorts => st
    case Other =>
      if st.inFlowPorts then st.(inFlowPorts := ']' !in Trim(line))
      else if st.inPorts && Swallows(st.portsIndent, line) then st
      else st.(inPorts := false, out := st.out + [line])
  }

  /** The loop after the first `n` lines. */
  function Run(lines: seq<string>, n: nat, withHostname: set<string>): Scan
    requires n <= |lines|
  {
    if n == 0 then START else Step(Run(lines, n - 1, withHostname), lines[n - 1], withHostname)
  }

  function Sanitized(data: string, withHostname: set<string>): string {
    var lines := Lines(data);
    Join(Run(lines, |lines|, withHostname).out)
  }

  /** The part of the loop body that keeps track of the service the lines belong to. */
  method TrackService(line: string, trimmed: string, indentWidth: nat, indent: int, service: string, out: seq<string>, ghost st: Scan)
    returns (serviceIndent: int, currentService: string)
    requires trimmed == Trim(line) && indentWidth == Indent(line)
    requires indent == st.serviceIndent && service == st.currentService && out == st.out
    ensures serviceIndent == ServiceIndent(st, line) && currentService == CurrentService(st, line)
  {
    hide Trim, Indent;
    serviceIndent, currentService := indent, service;
    if trimmed == "services:" {
      serviceIndent := -1;
    } else if serviceIndent == -1 && trimmed != "" && trimmed[0] != '#' && |out| > 0 && Trim(out[|out| - 1]) == "services:" {
      serviceIndent := indentWidth;
    }
    if serviceIndent >= 0 && indentWidth == serviceIndent && trimmed != "" && trimmed[|trimmed| - 1] == ':' && ' ' !in trimmed {
      currentService := trimmed[..|trimmed| - 1];
    }
  }

  lemma RunFrom(lines: seq<string>, withHostname: set<string>)
    ensures Run(lines, 0, withHostname) == START
    ensures forall i :: 0 <= i < |lines| ==> Run(lines, i + 1, withHostname) == Step(Run(lines, i, withHostname), lines[i], withHostname)
  {
    hide Step;
  }

  method Sanitize(data: string, withHostname: set<string>) returns (text: string)
    ensures text == Sanitized(data, withHostname)
  {
    hide Trim, TrimQuotes, Indent, Lines, Join, HasPrefix, ServiceIndent, CurrentService, Run;
    var lines := Lines(data);
    var out: seq<string> := [];
    var inPorts, inFlowPorts, portsIndent: nat := false, false, 0;
    var serviceIndent: int, currentService := -1, "";
    RunFrom(lines, withHostname);
    for i := 0 to |lines|
      invariant Scan(inPorts, inFlowPorts, portsIndent, serviceIndent, currentService, out) == Run(lines, i, withHostname)
    {
      var line := lines[i];
      var trimmed := Trim(line);
      var indentWidth := Indent(line);
      ghost var before := Run(lines, i, withHostname);
      serviceIndent, currentService := TrackService(line, trimmed, indentWidth, serviceIndent, currentService, out, before);
      if HasPrefix(line, "name:") {
        continue;
      }
      if HasPrefix(trimmed, "container_name:") {
        if currentService in withHostname {
          continue;
        }
        var name := TrimQuotes(Trim(trimmed[|"container_name:"|..]));
        out := out + [line[..indentWidth] + "hostname: " + name];
        continue;
      }
      if HasPrefix(trimmed, "ports:") {
        var rest := Trim(trimmed[|"ports:"|..]);
        if rest == "" || rest[0] == '#' {
          inPorts, portsIndent := true, indentWidth;
        } else if rest[0] == '[' && ']' !in rest {
          inFlowPorts := true;
        }
        continue;
      }
      if inFlowPorts {
        if ']' in trimmed {
          inFlowPorts := false;
        }
        continue;
      }
      if inPorts {
        if trimmed == "" || indentWidth > portsIndent || trimmed[0] == '-' {
          continue;
        }
        inPorts := false;
      }
      out := out + [line];
    }
    text := Join(out);
  }

  // ---- What the pass drops, said without the loop's flags ----

  /** The line at `i` stands inside a bracketed port list opened above and not yet closed. */
  ghost predicate InFlow(lines: seq<string>, i: nat)
    requires i <= |lines|
  {
    exists j :: 0 <= j < i && OpenFlow(lines, j, i)
  }

  ghost predicate OpenFlow(lines: seq<string>, j: nat, i: nat)
    requires j < i <= |lines|
  {
    KindOf(lines[j]).FlowPorts? && forall k :: j < k < i ==> !Closes(lines[k])
  }

  predicate Closes(line: string) { KindOf(line).Other? && ']' in Trim(line) }

  /** The first `i` lines end inside the items of the last `ports:` block. */
  ghost predicate InBlock(lines: seq<string>, i: nat)
    requires i <= |lines|
  {
    exists j :: 0 <= j < i && OpenBlock(lines, j, i)
  }

  ghost predicate OpenBlock(lines: seq<string>, j: nat, i: nat)
    requires j < i <= |lines|
  {
    KindOf(lines[j]).BlockPorts? && forall k :: j < k < i ==> KeepsBlock(lines, k, Indent(lines[j]))
  }

  ghost predicate KeepsBlock(lines: seq<string>, k: nat, portsIndent: nat)
    requires k < |lines|
  {
    && !KindOf(lines[k]).BlockPorts?
    && (KindOf(lines[k]).Other? ==> InFlow(lines, k) || Swallows(portsIndent, lines[k]))
  }

  ghost predicate Survives(lines: seq<string>, i: nat)
    requires i < |lines|
  {
    KindOf(lines[i]).Other? && !InFlow(lines, i) && !InBlock(lines, i + 1)
  }

  /** What the first `n` lines contribute to the output, line by line. */
  ghost function Expected(lines: seq<string>, n: nat, withHostname: set<string>): seq<string>
    requires n <= |lines|
  {
    if n == 0 then []
    else
      var line := lines[n - 1];
      Expected(lines, n - 1, withHostname) +
      if Survives(lines, n - 1) then [line]
      else if KindOf(line).ContainerName? && !Recognised(lines, n, withHostname) then [HostnameLine(line)]
      else []
  }

  lemma InFlowStep(lines: seq<string>, i: nat)
    requires i < |lines|
    ensures InFlow(lines, i + 1) <==> KindOf(lines[i]).FlowPorts? || (InFlow(lines, i) && !Closes(lines[i]))
  {
    hide KindOf, Trim, Swallows, ServiceIndent, CurrentService, HostnameLine;
    if KindOf(lines[i]).FlowPorts? {
      assert OpenFlow(lines, i, i + 1);
    }
    if InFlow(lines, i) && !Closes(lines[i]) {
      var j :| 0 <= j < i && OpenFlow(lines, j, i);
      assert OpenFlow(lines, j, i + 1);
    }
    if InFlow(lines, i + 1) && !KindOf(lines[i]).FlowPorts? {
      var j :| 0 <= j < i + 1 && OpenFlow(lines, j, i + 1);
      assert OpenFlow(lines, j, i);
    }
  }

  lemma {:induction false} FlowFlag(lines: seq<string>, i: nat, withHostname: set<string>)
    requires i <= |lines|
    ensures Run(lines, i, withHostname).inFlowPorts <==> InFlow(lines, i)
  {
    hide KindOf, Trim, Swallows, ServiceIndent, CurrentService, HostnameLine;
    if i > 0 {
      FlowFlag(lines, i - 1, withHostname);
      InFlowStep(lines, i - 1);
    }
  }

  /** The first `i` lines end inside a block whose `ports:` stands at this indent. */
  ghost predicate InBlockAt(lines: seq<string>, i: nat, portsIndent: nat)
    requires i <= |lines|
  {
    exists j :: 0 <= j < i && OpenBlock(lines, j, i) && Indent(lines[j]) == portsIndent
  }

  lemma OneBlock(lines: seq<string>, i: nat, a: nat, b: nat)
    requires a < i <= |lines| && b < i && OpenBlock(lines, a, i) && OpenBlock(lines, b, i)
    ensures a == b
  {
    hide KindOf, Swallows;
    assert a < b ==> KeepsBlock(lines, b, Indent(lines[a]));
    assert b < a ==> KeepsBlock(lines, a, Indent(lines[b]));
  }

  lemma InBlockStep(lines: seq<string>, i: nat, portsIndent: nat)
    requires i < |lines| && !KindOf(lines[i]).BlockPorts?
    ensures InBlockAt(lines, i + 1, portsIndent) <==> InBlockAt(lines, i, portsIndent) && KeepsBlock(lines, i, portsIndent)
  {
  }

  lemma InBlockIsAtOneIndent(lines: seq<string>, i: nat, p: nat)
    requires i <= |lines| && InBlockAt(lines, i, p)
    ensures InBlock(lines, i) && forall q: nat :: InBlockAt(lines, i, q) ==> q == p
  {
    hide KindOf, Swallows, OpenBlock;
    var j :| 0 <= j < i && OpenBlock(lines, j, i) && Indent(lines[j]) == p;
    forall q: nat | InBlockAt(lines, i, q)
      ensures q == p
    {
      var k :| 0 <= k < i && OpenBlock(lines, k, i) && Indent(lines[k]) == q;
      OneBlock(lines, i, j, k);
    }
  }

  lemma {:induction false} BlockFlag(lines: seq<string>, i: nat, withHostname: set<string>)
    requires i <= |lines|
    ensures Run(lines, i, withHostname).inPorts <==> InBlock(lines, i)
    ensures InBlock(lines, i) ==> InBlockAt(lines, i, Run(lines, i, withHostname).portsIndent)
  {
    hide KindOf, Swallows, ServiceIndent, CurrentService, HostnameLine, Trim, KeepsBlock, OpenBlock, InFlow;
    if i > 0 {
      BlockFlag(lines, i - 1, withHostname);
      FlowFlag(lines, i - 1, withHostname);
      var st := Run(lines, i - 1, withHostname);
      if KindOf(lines[i - 1]).BlockPorts? {
        assert OpenBlock(lines, i - 1, i) by { BlockOpens(lines, i - 1); }
      } else {
        BlockContinues(lines, i - 1, st);
      }
    }
  }

  lemma BlockOpens(lines: seq<string>, i: nat)
    requires i < |lines| && KindOf(lines[i]).BlockPorts?
    ensures OpenBlock(lines, i, i + 1)
  {
  }

  lemma BlockContinues(lines: seq<string>, i: nat, st: Scan)
    requires i < |lines| && !KindOf(lines[i]).BlockPorts?
    requires st.inFlowPorts <==> InFlow(lines, i)
    requires st.inPorts <==> InBlock(lines, i)
    requires InBlock(lines, i) ==> InBlockAt(lines, i, st.portsIndent)
    ensures InBlock(lines, i + 1) <==> st.inPorts && (KindOf(lines[i]).Other? ==> st.inFlowPorts || Swallows(st.portsIndent, lines[i]))
    ensures InBlock(lines, i + 1) ==> InBlockAt(lines, i + 1, st.portsIndent)
  {
    hide KindOf, Swallows, OpenBlock;
    InBlockStep(lines, i, st.portsIndent);
    if InBlock(lines, i + 1) {
      var j :| 0 <= j < i + 1 && OpenBlock(lines, j, i + 1);
      var q := Indent(lines[j]);
      assert InBlockAt(lines, i + 1, q);
      InBlockStep(lines, i, q);
      InBlockIsAtOneIndent(lines, i, q);
    }
  }

  lemma WrittenLine(st: Scan, line: string, withHostname: set<string>)
    ensures var next := Step(st, line, withHostname);
      next.out == st.out + if KindOf(line).Other? && !st.inFlowPorts && !next.inPorts then [line]
      else if KindOf(line).ContainerName? && next.currentService !in withHostname then [HostnameLine(line)]
      else []
  {
  }

  /** The output is the input's lines in order: an ordinary line is written, unchanged, exactly when
      it stands in no port list, and a container name becomes a hostname unless the last service line
      before it names a service that has one. */
  lemma {:induction false} WritesExactlyTheSurvivors(lines: seq<string>, n: nat, withHostname: set<string>)
    requires n <= |lines|
    ensures Run(lines, n, withHostname).out == Expected(lines, n, withHostname)
  {
    hide KindOf, Step, HostnameLine, Survives, Recognised;
    if n > 0 {
      WritesExactlyTheSurvivors(lines, n - 1, withHostname);
      WrittenIff(lines, n - 1, withHostname);
    }
  }

  // ---- A second pass changes nothing ----

  lemma {:induction false} IndentOfPrefix(indent: string, rest: string)
    requires forall k :: 0 <= k < |indent| ==> indent[k] == ' ' || indent[k] == '\t'
    requires rest != "" && !IsSpace(rest[0])
    ensures Indent(indent + rest) == |indent|
    ensures Trim(indent + rest) == TrimRight(rest)
  {
    var s := indent + rest;
    if indent == "" {
      assert s == rest;
    } else {
      assert s[1..] == indent[1..] + rest;
      IndentOfPrefix(indent[1..], rest);
    }
  }

  lemma {:induction false} TrimRightKeepsStart(s: string)
    requires s != "" && !IsSpace(s[0])
    ensures TrimRight(s) != "" && TrimRight(s)[0] == s[0]
  {
    if IsSpace(s[|s| - 1]) {
      TrimRightKeepsStart(s[..|s| - 1]);
    }
  }

  lemma OrdinaryFromFirstLetter(line: string)
    requires line != "" && line[0] != 'n'
    requires Trim(line) != "" && Trim(line)[0] !in "cp"
    ensures KindOf(line).Other?
  {
  }

  lemma NameHasNoNewline(line: string)
    requires '\n' !in line
    ensures '\n' !in TrimQuotes(After(Trim(line), 15))
  {
    TrimFacts(line);
    TrimQuotesFacts(After(Trim(line), 15));
    if 15 <= |Trim(line)| {
      TrimFacts(Trim(line)[15..]);
    }
    hide Trim, TrimQuotes;
  }

  /** The new line stands at the old indent, and no pass touches it again. */
  lemma HostnameLineIsOrdinary(line: string)
    requires '\n' !in line
    ensures Indent(HostnameLine(line)) == Indent(line)
    ensures KindOf(HostnameLine(line)).Other? && '\n' !in HostnameLine(line)
  {
    hide KindOf, Trim, TrimRight, After, TrimQuotes;
    NameHasNoNewline(line);
    IndentIsBlank(line);
    var indent := line[..Indent(line)];
    var rest := "hostname: " + TrimQuotes(After(Trim(line), 15));
    var h := HostnameLine(line);
    assert h == indent + rest && rest[0] == 'h';
    IndentOfPrefix(indent, rest);
    TrimRightKeepsStart(rest);
    assert h[0] == if indent == "" then 'h' else indent[0];
    OrdinaryFromFirstLetter(h);
  }

  lemma {:induction false} OutputIsOrdinary(lines: seq<string>, n: nat, withHostname: set<string>)
    requires n <= |lines| && forall l :: l in lines ==> '\n' !in l
    ensures forall l :: l in Run(lines, n, withHostname).out ==> KindOf(l).Other? && '\n' !in l
  {
    hide KindOf, Trim, Swallows, ServiceIndent, CurrentService, HostnameLine;
    if n > 0 {
      OutputIsOrdinary(lines, n - 1, withHostname);
      if KindOf(lines[n - 1]).ContainerName? {
        HostnameLineIsOrdinary(lines[n - 1]);
      }
    }
  }

  lemma {:induction false} OrdinaryLinesPass(lines: seq<string>, n: nat, withHostname: set<string>)
    requires n <= |lines| && forall l :: l in lines ==> KindOf(l).Other?
    ensures Run(lines, n, withHostname).out == lines[..n]
    ensures !Run(lines, n, withHostname).inPorts && !Run(lines, n, withHostname).inFlowPorts
  {
    hide KindOf, Trim, Swallows, ServiceIndent, CurrentService, HostnameLine;
    if n > 0 {
      OrdinaryLinesPass(lines, n - 1, withHostname);
      assert lines[..n] == lines[..n - 1] + [lines[n - 1]];
    }
  }

  /** Sanitizing twice equals sanitizing once, whatever hostnames either pass was told of. */
  lemma SanitizingIsIdempotent(data: string, first: set<string>, second: set<string>)
    ensures Sanitized(Sanitized(data, first), second) == Sanitized(data, first)
  {
    hide Step;
    var lines := Lines(data);
    var out := Run(lines, |lines|, first).out;
    LinesHaveNoNewline(data);
    OutputIsOrdinary(lines, |lines|, first);
    if out == [] {
      assert KindOf("").Other?;
      OrdinaryLinesPass([""], 1, second);
    } else {
      LinesOfJoin(out);
      OrdinaryLinesPass(out, |out|, second);
      assert out[..|out|] == out;
    }
  }

  lemma EmptyIsOrdinary()
    ensures Lines("") == [""] && KindOf("").Other?
  {
  }

  /** No `ports:`, no `container_name:` and no project name is left in the written file. */
  lemma NothingForbiddenIsLeft(data: string, withHostname: set<string>)
    ensures forall l :: l in Lines(Sanitized(data, withHostname)) ==> !HasPrefix(l, "name:")
    ensures forall l :: l in Lines(Sanitized(data, withHostname)) ==> !HasPrefix(Trim(l), "ports:")
    ensures forall l :: l in Lines(Sanitized(data, withHostname)) ==> !HasPrefix(Trim(l), "container_name:")
  {
    hide Trim, Run, Lines;
    var lines := Lines(data);
    var out := Run(lines, |lines|, withHostname).out;
    LinesHaveNoNewline(data);
    OutputIsOrdinary(lines, |lines|, withHostname);
    if out == [] {
      EmptyIsOrdinary();
    } else {
      LinesOfJoin(out);
    }
  }

  // ---- Lists of ports, said of the text alone ----

  lemma NameIsNoKey(line: string)
    requires HasPrefix(line, "name:")
    ensures Trim(line) != "" && Trim(line)[0] == 'n' && Indent(line) == 0
  {
    hide Trim, TrimRight;
    assert line == [] + line && line[0] == 'n';
    IndentOfPrefix([], line);
    TrimRightKeepsStart(line);
  }

  /** A line led by `ports:` opens a list of items, or a bracketed list, or is complete in itself. */
  lemma PortsKinds(line: string)
    requires HasPrefix(Trim(line), "ports:")
    ensures var rest := Trim(Trim(line)[6..]);
      && (rest == "" || rest[0] == '#' <==> KindOf(line).BlockPorts?)
      && (rest != "" && rest[0] == '[' && ']' !in rest <==> KindOf(line).FlowPorts?)
      && !KindOf(line).Other? && !KindOf(line).ContainerName? && !KindOf(line).ProjectName?
  {
    hide Trim;
    if HasPrefix(line, "name:") {
      NameIsNoKey(line);
    }
    assert Trim(line)[0] == 'p';
  }

  lemma OrdinaryKind(line: string)
    ensures KindOf(line).Other? <==>
      !HasPrefix(line, "name:") && !HasPrefix(Trim(line), "ports:") && !HasPrefix(Trim(line), "container_name:")
    ensures KindOf(line).ProjectName? <==> HasPrefix(line, "name:")
    ensures KindOf(line).ContainerName? ==> HasPrefix(Trim(line), "container_name:")
    ensures (KindOf(line).BlockPorts? || KindOf(line).FlowPorts?) ==> HasPrefix(Trim(line), "ports:")
  {
    hide Trim;
  }

  /** None of a `ports:` key and its items is written: the lines below that are blank, indented deeper or
      led by a dash. Only a container name among them is, as a hostname. */
  lemma {:induction false} PortItemsAreNotWritten(lines: seq<string>, j: nat, k: nat, withHostname: set<string>)
    requires j <= k < |lines| && HasPrefix(Trim(lines[j]), "ports:")
    requires var rest := Trim(Trim(lines[j])[6..]); rest == "" || rest[0] == '#'
    requires forall i :: j < i <= k ==> Trim(lines[i]) == "" || Indent(lines[i]) > Indent(lines[j]) || Trim(lines[i])[0] == '-'
    requires forall i :: j < i <= k && HasPrefix(Trim(lines[i]), "ports:") ==>
               var rest := Trim(Trim(lines[i])[6..]); rest != "" && rest[0] != '#'
    ensures HasPrefix(Trim(lines[k]), "container_name:") || Run(lines, k + 1, withHostname).out == Run(lines, k, withHostname).out
    ensures Run(lines, k + 1, withHostname).inPorts && Run(lines, k + 1, withHostname).portsIndent == Indent(lines[j])
  {
    hide Trim, KindOf, HostnameLine, ServiceIndent, CurrentService, HasPrefix, Indent;
    OrdinaryKind(lines[k]);
    if k == j {
      PortsKinds(lines[j]);
    } else {
      PortItemsAreNotWritten(lines, j, k - 1, withHostname);
      if HasPrefix(Trim(lines[k]), "ports:") {
        PortsKinds(lines[k]);
      }
    }
  }

  /** Nor any line of a bracketed list, from the one that opens it to the one that closes it. */
  lemma {:induction false} BracketedPortsAreNotWritten(lines: seq<string>, j: nat, k: nat, withHostname: set<string>)
    requires j <= k < |lines| && HasPrefix(Trim(lines[j]), "ports:")
    requires var rest := Trim(Trim(lines[j])[6..]); rest != "" && rest[0] == '[' && ']' !in rest
    requires forall i :: j < i < k && ']' in Trim(lines[i]) ==>
               HasPrefix(lines[i], "name:") || HasPrefix(Trim(lines[i]), "ports:") || HasPrefix(Trim(lines[i]), "container_name:")
    ensures HasPrefix(Trim(lines[k]), "container_name:") || Run(lines, k + 1, withHostname).out == Run(lines, k, withHostname).out
    ensures k > j ==> Run(lines, k, withHostname).inFlowPorts
  {
    hide Trim, KindOf, HostnameLine, ServiceIndent, CurrentService, HasPrefix, Swallows;
    OrdinaryKind(lines[k]);
    if k == j {
      PortsKinds(lines[j]);
    } else {
      BracketedPortsAreNotWritten(lines, j, k - 1, withHostname);
      OrdinaryKind(lines[k - 1]);
      if k - 1 == j {
        PortsKinds(lines[j]);
      } else if HasPrefix(Trim(lines[k - 1]), "ports:") {
        PortsKinds(lines[k - 1]);
      }
    }
  }

  /** Every bracketed list that is opened above the line is closed above it. */
  lemma ListsAreClosed(lines: seq<string>, k: nat, withHostname: set<string>)
    requires k <= |lines|
    requires forall f :: 0 <= f < k && HasPrefix(Trim(lines[f]), "ports:") ==>
               var rest := Trim(Trim(lines[f])[6..]);
               rest != "" && rest[0] == '[' && ']' !in rest ==>
               exists m :: f < m < k && ']' in Trim(lines[m]) && !HasPrefix(lines[m], "name:")
                 && !HasPrefix(Trim(lines[m]), "ports:") && !HasPrefix(Trim(lines[m]), "container_name:")
    ensures !Run(lines, k, withHostname).inFlowPorts
  {
    hide Trim, KindOf, HasPrefix, Run;
    FlowFlag(lines, k, withHostname);
    if j :| 0 <= j < k && OpenFlow(lines, j, k) {
      OrdinaryKind(lines[j]);
      PortsKinds(lines[j]);
      var m :| j < m < k && ']' in Trim(lines[m]) && !HasPrefix(lines[m], "name:")
        && !HasPrefix(Trim(lines[m]), "ports:") && !HasPrefix(Trim(lines[m]), "container_name:");
      OrdinaryKind(lines[m]);
    }
  }

  /** The first line after the items is written unchanged, where it is no key that the pass replaces or
      drops and no bracketed list is open. */
  lemma {:induction false} LineAfterItemsIsWritten(lines: seq<string>, j: nat, k: nat, withHostname: set<string>)
    requires j < k < |lines| && HasPrefix(Trim(lines[j]), "ports:")
    requires var rest := Trim(Trim(lines[j])[6..]); rest == "" || rest[0] == '#'
    requires forall i :: j < i < k ==> Trim(lines[i]) == "" || Indent(lines[i]) > Indent(lines[j]) || Trim(lines[i])[0] == '-'
    requires forall i :: j < i < k && HasPrefix(Trim(lines[i]), "ports:") ==>
               var rest := Trim(Trim(lines[i])[6..]); rest != "" && rest[0] != '#'
    requires Trim(lines[k]) != "" && Indent(lines[k]) <= Indent(lines[j]) && Trim(lines[k])[0] != '-'
    requires !HasPrefix(lines[k], "name:") && !HasPrefix(Trim(lines[k]), "ports:") && !HasPrefix(Trim(lines[k]), "container_name:")
    requires forall f :: 0 <= f < k && HasPrefix(Trim(lines[f]), "ports:") ==>
               var rest := Trim(Trim(lines[f])[6..]);
               rest != "" && rest[0] == '[' && ']' !in rest ==>
               exists m :: f < m < k && ']' in Trim(lines[m]) && !HasPrefix(lines[m], "name:")
                 && !HasPrefix(Trim(lines[m]), "ports:") && !HasPrefix(Trim(lines[m]), "container_name:")
    ensures Run(lines, k + 1, withHostname).out == Run(lines, k, withHostname).out + [lines[k]]
  {
    hide Trim, KindOf, HostnameLine, ServiceIndent, CurrentService, HasPrefix, Indent;
    PortItemsAreNotWritten(lines, j, k - 1, withHostname);
    ListsAreClosed(lines, k, withHostname);
    OrdinaryKind(lines[k]);
  }

  /** So is every such line that no list of ports stands above. */
  lemma {:induction false} LineWithoutPortsAboveIsWritten(lines: seq<string>, k: nat, withHostname: set<string>)
    requires k < |lines| && forall i :: 0 <= i < k ==> !HasPrefix(Trim(lines[i]), "ports:")
    requires !HasPrefix(lines[k], "name:") && !HasPrefix(Trim(lines[k]), "ports:") && !HasPrefix(Trim(lines[k]), "container_name:")
    ensures Run(lines, k + 1, withHostname).out == Run(lines, k, withHostname).out + [lines[k]]
  {
    hide Trim, KindOf, HostnameLine, ServiceIndent, CurrentService, HasPrefix, Indent, Swallows;
    NoListIsOpen(lines, k, withHostname);
    OrdinaryKind(lines[k]);
  }

  lemma {:induction false} NoListIsOpen(lines: seq<string>, k: nat, withHostname: set<string>)
    requires k <= |lines| && forall i :: 0 <= i < k ==> !HasPrefix(Trim(lines[i]), "ports:")
    ensures !Run(lines, k, withHostname).inPorts && !Run(lines, k, withHostname).inFlowPorts
  {
    hide Trim, KindOf, HostnameLine, ServiceIndent, CurrentService, HasPrefix, Swallows;
    if k > 0 {
      NoListIsOpen(lines, k - 1, withHostname);
      OrdinaryKind(lines[k - 1]);
    }
  }

  /** A project name is dropped. */
  lemma ProjectNameIsDropped(lines: seq<string>, k: nat, withHostname: set<string>)
    requires k < |lines| && HasPrefix(lines[k], "name:")
    ensures Run(lines, k + 1, withHostname).out == Run(lines, k, withHostname).out
  {
    hide Trim, HostnameLine, ServiceIndent, CurrentService;
  }

  predicate Unquoted(name: string) {
    && name != "" && name[0] !in {'"', '\''} && name[|name| - 1] !in {'"', '\''}
    && !IsSpace(name[0]) && !IsSpace(name[|name| - 1])
  }

  /** The hostname is the container's name, without its quotes, at the old indent. */
  lemma HostnameIsTheContainerName(indent: string, gap: string, quote: string, name: string)
    requires (forall c :: c in indent ==> c == ' ' || c == '\t') && Blank(gap)
    requires quote in {"", "\"", "'"} && Unquoted(name)
    ensures HostnameLine(indent + "container_name:" + gap + quote + name + quote) == indent + "hostname: " + name
    ensures KindOf(indent + "container_name:" + gap + quote + name + quote).ContainerName?
  {
    hide Trim, TrimRight, TrimQuotes, Indent;
    var core := quote + name + quote;
    var rest := "container_name:" + gap + core;
    var line := indent + rest;
    assert indent + "container_name:" + gap + quote + name + quote == line;
    assert core[0] == if quote == "" then name[0] else quote[0];
    assert core[|core| - 1] == if quote == "" then name[|name| - 1] else quote[0];
    assert rest[|rest| - 1] == core[|core| - 1] && rest[0] == 'c';
    assert forall k :: 0 <= k < |indent| ==> indent[k] in indent;
    IndentOfPrefix(indent, rest);
    TrimRightDrops(rest, "");
    assert rest + "" == rest && rest[15..] == gap + core && gap + core + "" == gap + core;
    TrimDropsBlanks(gap, core, "");
    QuotesGo(quote, name);
    assert line[..|indent|] == indent;
    assert HasPrefix(rest, "container_name:");
    if HasPrefix(line, "name:") {
      NameIsNoKey(line);
    }
  }

  lemma QuotesGo(quote: string, name: string)
    requires quote in {"", "\"", "'"} && Unquoted(name)
    ensures TrimQuotes(quote + name + quote) == name
  {
    if quote == "" {
      assert quote + name + quote == name;
    } else {
      var s := quote + name + quote;
      assert s[1..] == name + quote && (name + quote)[..|name|] == name;
      assert TrimQuotes(s) == TrimQuotes(name + quote) == TrimQuotes(name);
    }
  }

  // ---- Whose hostname the pass consults ----

  predicate BlankOrComment(line: string) { Trim(line) == "" || Trim(line)[0] == '#' }

  predicate ServiceKey(line: string, indent: nat) {
    Indent(line) == indent && Trim(line) != "" && Trim(line)[|Trim(line)| - 1] == ':' && ' ' !in Trim(line)
  }

  /** No service is being tracked, and the next line will not start the tracking. */
  predicate Untracked(st: Scan) {
    st.serviceIndent == -1 && st.currentService == "" && (st.out == [] || Trim(st.out[|st.out| - 1]) != "services:")
  }

  lemma StaysUntracked(st: Scan, line: string, withHostname: set<string>)
    requires Untracked(st) && Trim(line) != "services:" && '\n' !in line
    ensures Untracked(Step(st, line, withHostname))
  {
    hide Trim, KindOf, Swallows;
    if KindOf(line).ContainerName? {
      HostnameLineTrimsToHostname(line);
    }
  }

  lemma HostnameLineTrimsToHostname(line: string)
    ensures Trim(HostnameLine(line)) != "services:"
  {
    hide KindOf, Trim, TrimRight, After, TrimQuotes;
    var rest := "hostname: " + TrimQuotes(After(Trim(line), 15));
    IndentIsBlank(line);
    assert HostnameLine(line) == line[..Indent(line)] + rest && rest[0] == 'h';
    IndentOfPrefix(line[..Indent(line)], rest);
    TrimRightKeepsStart(rest);
    assert "services:"[0] == 's';
  }

  lemma {:induction false} UntrackedUntil(lines: seq<string>, from: nat, n: nat, withHostname: set<string>)
    requires from <= n <= |lines| && Untracked(Run(lines, from, withHostname))
    requires forall l :: l in lines ==> '\n' !in l
    requires forall k :: from <= k < n ==> Trim(lines[k]) != "services:"
    ensures Untracked(Run(lines, n, withHostname))
  {
    hide Trim, Step, Untracked;
    if from < n {
      UntrackedUntil(lines, from, n - 1, withHostname);
      StaysUntracked(Run(lines, n - 1, withHostname), lines[n - 1], withHostname);
    }
  }

  lemma TrackingStep(st: Scan, line: string, withHostname: set<string>, indent: nat)
    requires ServiceIndent(st, line) == indent
    ensures Step(st, line, withHostname).serviceIndent == indent
    ensures ServiceKey(line, indent) ==> Step(st, line, withHostname).currentService == Trim(line)[..|Trim(line)| - 1]
    ensures !ServiceKey(line, indent) ==> Step(st, line, withHostname).currentService == st.currentService
  {
    hide Trim, KindOf, Swallows, HostnameLine, ServiceIndent;
  }

  lemma {:induction false} TrackedUntil(lines: seq<string>, from: nat, n: nat, withHostname: set<string>, indent: nat)
    requires from <= n <= |lines| && Run(lines, from, withHostname).serviceIndent == indent
    requires forall k :: from <= k < n ==> Trim(lines[k]) != "services:"
    ensures Run(lines, n, withHostname).serviceIndent == indent
    ensures forall k :: from <= k < n && k == n - 1 ==> ServiceIndent(Run(lines, k, withHostname), lines[k]) == indent
  {
    hide Trim, Step, ServiceKey;
    if from < n {
      TrackedUntil(lines, from, n - 1, withHostname, indent);
      TrackingStep(Run(lines, n - 1, withHostname), lines[n - 1], withHostname, indent);
    }
  }

  lemma {:induction false} ServiceStays(lines: seq<string>, from: nat, n: nat, withHostname: set<string>, indent: nat)
    requires from <= n <= |lines| && Run(lines, from, withHostname).serviceIndent == indent
    requires forall k :: from <= k < n ==> Trim(lines[k]) != "services:" && !ServiceKey(lines[k], indent)
    ensures Run(lines, n, withHostname).currentService == Run(lines, from, withHostname).currentService
  {
    hide Trim, Step, ServiceKey;
    if from < n {
      ServiceStays(lines, from, n - 1, withHostname, indent);
      TrackedUntil(lines, from, n, withHostname, indent);
      TrackingStep(Run(lines, n - 1, withHostname), lines[n - 1], withHostname, indent);
    }
  }

  /** Just after `services:` is written no port list is open and the next line decides. */
  lemma AtServices(lines: seq<string>, j: nat, withHostname: set<string>)
    requires j < |lines| && Trim(lines[j]) == "services:" && Survives(lines, j)
    requires Untracked(Run(lines, j, withHostname))
    ensures var st := Run(lines, j + 1, withHostname); st.serviceIndent == -1 && st.currentService == ""
    ensures var st := Run(lines, j + 1, withHostname); !st.inPorts && !st.inFlowPorts
    ensures var st := Run(lines, j + 1, withHostname); st.out != [] && st.out[|st.out| - 1] == lines[j]
  {
    hide Trim, KindOf, Swallows, HostnameLine, InFlow, InBlock, InBlockAt;
    FlowFlag(lines, j, withHostname);
    BlockFlag(lines, j + 1, withHostname);
  }

  lemma {:induction false} FirstChild(st: Scan, line: string, withHostname: set<string>)
    requires st.serviceIndent == -1 && st.currentService == "" && !st.inPorts && !st.inFlowPorts
    requires st.out != [] && Trim(st.out[|st.out| - 1]) == "services:" && Trim(line) != "services:"
    ensures BlankOrComment(line) ==> Untracked(Step(st, line, withHostname))
    ensures !BlankOrComment(line) ==> ServiceIndent(st, line) == Indent(line)
  {
    hide Trim, KindOf, Swallows, HostnameLine;
    if BlankOrComment(line) {
      BlankOrCommentIsOrdinary(line);
    }
  }

  lemma BlankOrCommentIsOrdinary(line: string)
    requires BlankOrComment(line)
    ensures KindOf(line).Other?
  {
    hide Trim, TrimRight;
    if HasPrefix(line, "name:") {
      assert line == [] + line && line[0] == 'n';
      IndentOfPrefix([], line);
      TrimRightKeepsStart(line);
    }
  }

  lemma StartIsUntracked()
    ensures Untracked(START)
  {
  }

  /** A container name below a service with a hostname of its own is dropped, as it must be lest the
      service have two, if and only if the line after `services:` is neither blank nor a comment. */
  lemma {:induction false} HostnameIsSeenIffChildFollowsAtOnce(
      lines: seq<string>, j: nat, own: nat, c: nat, name: string, withHostname: set<string>)
    requires j < own < c < |lines| && forall l :: l in lines ==> '\n' !in l
    requires Trim(lines[j]) == "services:" && Survives(lines, j)
    requires forall k :: 0 <= k <= c && k != j ==> Trim(lines[k]) != "services:"
    requires !BlankOrComment(lines[j + 1]) ==> Indent(lines[j + 1]) == Indent(lines[own])
    requires ServiceKey(lines[own], Indent(lines[own])) && Trim(lines[own]) == name + ":"
    requires forall k :: own < k <= c ==> !ServiceKey(lines[k], Indent(lines[own]))
    requires KindOf(lines[c]).ContainerName? && name in withHostname && "" !in withHostname
    ensures Run(lines, c + 1, withHostname).out == Run(lines, c, withHostname).out <==> !BlankOrComment(lines[j + 1])
  {
    hide Trim, KindOf, Swallows, Survives, ServiceKey, Untracked, BlankOrComment, Step;
    StartIsUntracked();
    UntrackedUntil(lines, 0, j, withHostname);
    AtServices(lines, j, withHostname);
    FirstChild(Run(lines, j + 1, withHostname), lines[j + 1], withHostname);
    if BlankOrComment(lines[j + 1]) {
      UntrackedUntil(lines, j + 2, c + 1, withHostname);
      UntrackedConverts(Run(lines, c, withHostname), lines[c], withHostname);
    } else {
      var indent := Indent(lines[own]);
      TrackingStep(Run(lines, j + 1, withHostname), lines[j + 1], withHostname, indent);
      if own > j + 1 {
        TrackedUntil(lines, j + 2, own + 1, withHostname, indent);
      }
      TrackingStep(Run(lines, own, withHostname), lines[own], withHostname, indent);
      ServiceStays(lines, own + 1, c + 1, withHostname, indent);
      KnownIsDropped(Run(lines, c, withHostname), lines[c], withHostname);
    }
  }

  lemma UntrackedConverts(st: Scan, line: string, withHostname: set<string>)
    requires KindOf(line).ContainerName? && Untracked(Step(st, line, withHostname)) && "" !in withHostname
    ensures Step(st, line, withHostname).out == st.out + [HostnameLine(line)]
  {
  }

  lemma KnownIsDropped(st: Scan, line: string, withHostname: set<string>)
    requires KindOf(line).ContainerName? && Step(st, line, withHostname).currentService in withHostname
    ensures Step(st, line, withHostname).out == st.out
  {
  }

  // ---- When a service is recognised, in any file ----

  // The conditions speak of the input's lines alone. They rest on one another, each on earlier lines.

  /** A line that would set the indent of services: it holds something, and the last line written
      before it is a bare `services:`. */
  ghost predicate AsksForIndent(lines: seq<string>, f: nat, withHostname: set<string>)
    requires f < |lines|
    decreases f, 6
  {
    Trim(lines[f]) != "services:" && !BlankOrComment(lines[f]) && FollowsServices(lines, f, withHostname)
  }

  ghost predicate FollowsServices(lines: seq<string>, f: nat, withHostname: set<string>)
    requires f <= |lines|
    decreases f, 5
  {
    exists w :: 0 <= w < f && Survives(lines, w) && Trim(lines[w]) == "services:" && NothingWritten(lines, w + 1, f, withHostname)
  }

  ghost predicate NothingWritten(lines: seq<string>, from: nat, n: nat, withHostname: set<string>)
    requires n <= |lines|
    decreases n, 4
  {
    forall k :: from <= k < n ==> !Survives(lines, k) && !(KindOf(lines[k]).ContainerName? && !Recognised(lines, k + 1, withHostname))
  }

  /** The last service line among the first `n` lines names a service with a hostname. */
  ghost predicate Recognised(lines: seq<string>, n: nat, withHostname: set<string>)
    requires n <= |lines|
    decreases n, 3
  {
    || (exists o: nat :: LastServiceLine(lines, o, n, withHostname) && KeyName(lines[o]) in withHostname)
    || ("" in withHostname && forall o: nat :: !LastServiceLine(lines, o, n, withHostname))
  }

  ghost predicate NoServicesLine(lines: seq<string>, from: nat, n: nat)
    requires n <= |lines|
  {
    forall k :: from <= k < n ==> Trim(lines[k]) != "services:"
  }

  /** The first line to ask since the last bare `services:`. */
  ghost predicate SetsIndent(lines: seq<string>, f: nat, n: nat, withHostname: set<string>)
    requires n <= |lines|
    decreases n, 0
  {
    && f < n && AsksForIndent(lines, f, withHostname) && NoServicesLine(lines, f, n)
    && forall e :: 0 <= e < f && AsksForIndent(lines, e, withHostname) ==> !NoServicesLine(lines, e, f)
  }

  /** A bare key at the indent that is then set: no comment, no anchor, nothing after the colon. */
  ghost predicate ServiceLine(lines: seq<string>, o: nat, withHostname: set<string>)
    requires o < |lines|
    decreases o + 1, 1
  {
    && ServiceKey(lines[o], Indent(lines[o]))
    && exists f: nat :: SetsIndent(lines, f, o + 1, withHostname) && Indent(lines[f]) == Indent(lines[o])
  }

  ghost predicate LastServiceLine(lines: seq<string>, o: nat, n: nat, withHostname: set<string>)
    requires n <= |lines|
    decreases n, 2
  {
    && o < n && ServiceLine(lines, o, withHostname)
    && forall k :: o < k < n ==> !ServiceLine(lines, k, withHostname)
  }

  function KeyName(line: string): string { if Trim(line) == "" then "" else Trim(line)[..|Trim(line)| - 1] }

  lemma StepTracks(st: Scan, line: string, withHostname: set<string>)
    ensures Step(st, line, withHostname).serviceIndent == ServiceIndent(st, line)
    ensures ServiceIndent(st, line) == Indent(line) && ServiceKey(line, Indent(line)) ==>
              Step(st, line, withHostname).currentService == KeyName(line)
    ensures !(ServiceIndent(st, line) == Indent(line) && ServiceKey(line, Indent(line))) ==>
              Step(st, line, withHostname).currentService == st.currentService
  {
    hide Trim, KindOf, Swallows, HostnameLine, ServiceIndent;
  }

  lemma {:induction false} AskingStep(lines: seq<string>, n: nat, withHostname: set<string>)
    requires n < |lines|
    ensures var st := Run(lines, n, withHostname);
      ServiceIndent(st, lines[n]) == if Trim(lines[n]) == "services:" then -1
      else if st.serviceIndent == -1 && AsksForIndent(lines, n, withHostname) then Indent(lines[n]) else st.serviceIndent
    decreases n, 5
  {
    hide Trim, Run, Indent, FollowsServices;
    FollowsServicesIff(lines, n, withHostname);
  }

  /** What the output ends in. */
  lemma {:induction false} FollowsServicesIff(lines: seq<string>, f: nat, withHostname: set<string>)
    requires f <= |lines|
    ensures var out := Run(lines, f, withHostname).out;
      FollowsServices(lines, f, withHostname) <==> out != [] && Trim(out[|out| - 1]) == "services:"
    decreases f, 4
  {
    hide Trim, KindOf, HostnameLine, Survives, Recognised, FollowsServices, Run;
    if f == 0 {
      NothingFollows(lines, withHostname);
    } else {
      FollowsServicesIff(lines, f - 1, withHostname);
      WrittenIff(lines, f - 1, withHostname);
      OneMoreFollows(lines, f, withHostname);
      HostnameLineTrimsToHostname(lines[f - 1]);
    }
  }

  lemma NothingFollows(lines: seq<string>, withHostname: set<string>)
    ensures !FollowsServices(lines, 0, withHostname) && Run(lines, 0, withHostname).out == []
  {
  }

  lemma OneMoreFollows(lines: seq<string>, f: nat, withHostname: set<string>)
    requires 0 < f <= |lines|
    ensures FollowsServices(lines, f, withHostname) <==>
      if Survives(lines, f - 1) then Trim(lines[f - 1]) == "services:"
      else !(KindOf(lines[f - 1]).ContainerName? && !Recognised(lines, f, withHostname)) && FollowsServices(lines, f - 1, withHostname)
  {
    hide Trim, KindOf, Survives, Recognised;
    if w :| 0 <= w < f - 1 && Survives(lines, w) && Trim(lines[w]) == "services:" && NothingWritten(lines, w + 1, f - 1, withHostname) {
      assert NothingWritten(lines, w + 1, f, withHostname) <==>
        !Survives(lines, f - 1) && !(KindOf(lines[f - 1]).ContainerName? && !Recognised(lines, f, withHostname));
    }
    if w :| 0 <= w < f - 1 && Survives(lines, w) && Trim(lines[w]) == "services:" && NothingWritten(lines, w + 1, f, withHostname) {
      assert NothingWritten(lines, w + 1, f - 1, withHostname);
    }
    assert NothingWritten(lines, f - 1 + 1, f, withHostname);
  }

  /** A line is written as it is, as a hostname, or not at all. */
  lemma {:induction false} WrittenIff(lines: seq<string>, k: nat, withHostname: set<string>)
    requires k < |lines|
    ensures Run(lines, k + 1, withHostname).out == Run(lines, k, withHostname).out +
      if Survives(lines, k) then [lines[k]]
      else if KindOf(lines[k]).ContainerName? && !Recognised(lines, k + 1, withHostname) then [HostnameLine(lines[k])]
      else []
    decreases k + 1, 3
  {
    hide KindOf, Trim, HostnameLine, InFlow, InBlock, InBlockAt, Step, LastServiceLine, KeyName;
    FlowFlag(lines, k, withHostname);
    BlockFlag(lines, k + 1, withHostname);
    WrittenLine(Run(lines, k, withHostname), lines[k], withHostname);
    ServiceIsThatOfTheLastServiceLine(lines, k + 1, withHostname);
  }

  lemma {:induction false} IndentIsThatOfTheFirstChild(lines: seq<string>, n: nat, withHostname: set<string>)
    requires n <= |lines|
    ensures Run(lines, n, withHostname).serviceIndent >= -1
    ensures forall f: nat :: SetsIndent(lines, f, n, withHostname) ==> Run(lines, n, withHostname).serviceIndent == Indent(lines[f])
    ensures Run(lines, n, withHostname).serviceIndent >= 0 ==> exists f: nat :: SetsIndent(lines, f, n, withHostname)
    ensures forall e :: 0 <= e < n && AsksForIndent(lines, e, withHostname) && NoServicesLine(lines, e, n) ==>
              Run(lines, n, withHostname).serviceIndent >= 0
    decreases n, 0
  {
    hide Trim, Step, AsksForIndent, ServiceIndent, Indent, BlankOrComment;
    if n > 0 {
      var m := n - 1;
      var st := Run(lines, m, withHostname);
      IndentIsThatOfTheFirstChild(lines, m, withHostname);
      StepTracks(st, lines[m], withHostname);
      AskingStep(lines, m, withHostname);
      AskedBefore(lines, n, withHostname);
      if Run(lines, n, withHostname).serviceIndent >= 0 {
        var f: nat;
        if st.serviceIndent >= 0 {
          f :| SetsIndent(lines, f, m, withHostname);
        } else {
          f := m;
        }
        assert SetsIndent(lines, f, n, withHostname);
      }
    }
  }

  lemma OneMoreLine(lines: seq<string>, f: nat, n: nat, withHostname: set<string>)
    requires f + 1 < n <= |lines|
    ensures NoServicesLine(lines, f, n) <==> NoServicesLine(lines, f, n - 1) && Trim(lines[n - 1]) != "services:"
    ensures SetsIndent(lines, f, n, withHostname) <==> SetsIndent(lines, f, n - 1, withHostname) && Trim(lines[n - 1]) != "services:"
  {
    hide Trim, AsksForIndent;
    assert NoServicesLine(lines, f, n - 1) && Trim(lines[n - 1]) != "services:" ==> NoServicesLine(lines, f, n);
  }

  lemma AskedBefore(lines: seq<string>, n: nat, withHostname: set<string>)
    requires 0 < n <= |lines|
    ensures Trim(lines[n - 1]) == "services:" ==> !AsksForIndent(lines, n - 1, withHostname)
    ensures forall f: nat :: f + 1 < n ==>
              (NoServicesLine(lines, f, n) <==> NoServicesLine(lines, f, n - 1) && Trim(lines[n - 1]) != "services:")
    ensures forall f: nat :: f + 1 < n ==>
              (SetsIndent(lines, f, n, withHostname) <==> SetsIndent(lines, f, n - 1, withHostname) && Trim(lines[n - 1]) != "services:")
  {
    hide Trim, Run, BlankOrComment, NoServicesLine, SetsIndent;
    forall f: nat | f + 1 < n
      ensures NoServicesLine(lines, f, n) <==> NoServicesLine(lines, f, n - 1) && Trim(lines[n - 1]) != "services:"
      ensures SetsIndent(lines, f, n, withHostname) <==> SetsIndent(lines, f, n - 1, withHostname) && Trim(lines[n - 1]) != "services:"
    {
      OneMoreLine(lines, f, n, withHostname);
    }
  }

  lemma LastServiceLineStep(lines: seq<string>, n: nat, withHostname: set<string>)
    requires 0 < n <= |lines|
    ensures ServiceLine(lines, n - 1, withHostname) ==> forall o: nat :: LastServiceLine(lines, o, n, withHostname) <==> o == n - 1
    ensures !ServiceLine(lines, n - 1, withHostname) ==>
              forall o: nat :: LastServiceLine(lines, o, n, withHostname) <==> LastServiceLine(lines, o, n - 1, withHostname)
  {
    hide ServiceLine;
  }

  lemma {:induction false} ServiceLineIff(lines: seq<string>, m: nat, withHostname: set<string>)
    requires m < |lines|
    ensures ServiceLine(lines, m, withHostname)
            <==> ServiceKey(lines[m], Indent(lines[m])) && Run(lines, m + 1, withHostname).serviceIndent == Indent(lines[m])
    decreases m + 1, 1
  {
    hide Run, Indent, SetsIndent, ServiceKey;
    IndentIsThatOfTheFirstChild(lines, m + 1, withHostname);
  }

  /** In any file the service a line is taken to belong to is that of the last service line: a bare key
      at the indent of the first child after a bare `services:`; before the first, none. */
  lemma {:induction false} ServiceIsThatOfTheLastServiceLine(lines: seq<string>, n: nat, withHostname: set<string>)
    requires n <= |lines|
    ensures forall o: nat :: LastServiceLine(lines, o, n, withHostname) ==> Run(lines, n, withHostname).currentService == KeyName(lines[o])
    ensures (forall o: nat :: !LastServiceLine(lines, o, n, withHostname)) ==> Run(lines, n, withHostname).currentService == ""
    decreases n, 2
  {
    hide Step, ServiceIndent, Indent, ServiceKey, KeyName, ServiceLine, LastServiceLine;
    if n == 0 {
      NoneInNoLines(lines, withHostname);
    } else {
      var m := n - 1;
      ServiceIsThatOfTheLastServiceLine(lines, m, withHostname);
      StepTracks(Run(lines, m, withHostname), lines[m], withHostname);
      ServiceLineIff(lines, m, withHostname);
      LastServiceLineStep(lines, n, withHostname);
      var was, service := Run(lines, m, withHostname).currentService, Run(lines, n, withHostname).currentService;
      if ServiceLine(lines, m, withHostname) {
        assert service == KeyName(lines[m]);
        assert LastServiceLine(lines, m, n, withHostname);
      } else {
        assert service == was;
        if o: nat :| LastServiceLine(lines, o, m, withHostname) {
          assert LastServiceLine(lines, o, n, withHostname);
        }
      }
    }
  }

  lemma NoneInNoLines(lines: seq<string>, withHostname: set<string>)
    ensures forall o: nat :: !LastServiceLine(lines, o, 0, withHostname)
  {
  }

  /** In any file a container name is dropped if and only if the last service line before it names a
      service with a hostname; every other one is turned into a hostname, and its service has two if it
      had one. */
  lemma {:induction false} ContainerNameIsDroppedIffItsServiceIsRecognised(lines: seq<string>, c: nat, withHostname: set<string>)
    requires c < |lines| && KindOf(lines[c]).ContainerName?
    ensures Run(lines, c + 1, withHostname).out ==
      Run(lines, c, withHostname).out + if Recognised(lines, c + 1, withHostname) then [] else [HostnameLine(lines[c])]
    ensures Run(lines, c + 1, withHostname).out == Run(lines, c, withHostname).out <==> Recognised(lines, c + 1, withHostname)
  {
    hide KindOf, HostnameLine, Recognised, InFlow, InBlock;
    WrittenIff(lines, c, withHostname);
    assert |Run(lines, c, withHostname).out + [HostnameLine(lines[c])]| == |Run(lines, c, withHostname).out| + 1;
  }

  /** So where no line is exactly `services:`, a comment after it being enough, no hostname is seen. */
  lemma {:induction false} DecoratedServicesLineHidesEveryHostname(lines: seq<string>, c: nat, withHostname: set<string>)
    requires c < |lines| && KindOf(lines[c]).ContainerName? && "" !in withHostname
    requires forall l :: l in lines ==> '\n' !in l
    requires forall k :: 0 <= k <= c ==> Trim(lines[k]) != "services:"
    ensures Run(lines, c + 1, withHostname).out == Run(lines, c, withHostname).out + [HostnameLine(lines[c])]
  {
    hide Trim, KindOf, Step, Untracked;
    StartIsUntracked();
    UntrackedUntil(lines, 0, c + 1, withHostname);
    UntrackedConverts(Run(lines, c, withHostname), lines[c], withHostname);
  }

  /** And a key with anything after its colon, or with a space in it, is no service line. */
  lemma DecoratedKeyIsNoServiceLine(lines: seq<string>, o: nat, withHostname: set<string>)
    requires o < |lines| && (' ' in Trim(lines[o]) || Trim(lines[o]) == "" || Trim(lines[o])[|Trim(lines[o])| - 1] != ':')
    ensures !ServiceLine(lines, o, withHostname)
  {
    hide Trim;
  }
}
