/** The generator: a process that opens files, reads bytes and prints text. */
module Generator {
  import opened Basics
  import opened Numerals
  import opened HeaderText
  import opened DataLiterals
  import opened Numbering

  const EOF := -1
  const EXIT_SUCCESS := 0
  const EXIT_FAILURE := 1

  /** An argument and the bytes behind it; None when it cannot be opened. */
  datatype Input = Input(name: CString, contents: Option<Contents>)

  // ----- what a run does to its files

  /** The files a run deals with: the header and its arguments. */
  datatype Handle = HeaderFile | Argument(index: nat)

  datatype Event =
    | Fopen(file: Handle)
    | Refused(index: nat)      // an argument that cannot be opened
    | Write(text: string)      // to the header
    | Read(index: nat)         // one `fgetc` of an argument
    | Fclose(file: Handle)

  /** The files open after one more event, whatever was open: opening adds a file and closing takes one away. */
  function OpenAfter(open: multiset<Handle>, e: Event): multiset<Handle> {
    match e
    case Fopen(h) => open + multiset{h}
    case Fclose(h) => open - multiset{h}
    case _ => open
  }

  /** The files open after a trace. */
  function OpenFiles(es: seq<Event>): multiset<Handle> {
    if es == [] then multiset{} else OpenAfter(OpenFiles(es[..|es| - 1]), es[|es| - 1])
  }

  /** What is written, read or closed is open. */
  predicate OnOpenFile(e: Event, open: multiset<Handle>) {
    match e
    case Write(_) => HeaderFile in open
    case Read(i) => Argument(i) in open
    case Fclose(h) => h in open
    case _ => true
  }

  /** At most two files are open, and at most one of them is an argument. */
  predicate FewOpen(open: multiset<Handle>) { |open| <= 2 && |open| - open[HeaderFile] <= 1 }

  /** The files as the process knows them: is the header open, and which argument is being read? */
  datatype Handles = Handles(output: bool, input: Option<nat>)

  const NO_HANDLES := Handles(false, None)

  /** One event of a run; None if it does not fit. */
  function Next(h: Handles, e: Event): Option<Handles> {
    match e
    case Fopen(HeaderFile) => if h == NO_HANDLES then Some(Handles(true, None)) else None
    case Fopen(Argument(i)) => if h == Handles(true, None) then Some(Handles(true, Some(i))) else None
    case Refused(_) => if h == Handles(true, None) then Some(h) else None
    case Write(_) => if h.output then Some(h) else None
    case Read(i) => if h == Handles(true, Some(i)) then Some(h) else None
    case Fclose(HeaderFile) => if h == Handles(true, None) then Some(NO_HANDLES) else None
    case Fclose(Argument(i)) => if h == Handles(true, Some(i)) then Some(Handles(true, None)) else None
  }

  /** What a trace amounts to: the files as the process knows them, the text in the header, all events but the writes. */
  datatype Record = Record(handles: Option<Handles>, text: string, handled: seq<Event>)

  function Log(r: Record, e: Event): Record {
    Record(if r.handles.None? then None else Next(r.handles.value, e),
           TextAfter(r.text, e),
           if e.Write? then r.handled else r.handled + [e])
  }

  function Logged(es: seq<Event>): Record {
    if es == [] then Record(Some(NO_HANDLES), "", []) else Log(Logged(es[..|es| - 1]), es[|es| - 1])
  }

  function HandlesAfter(es: seq<Event>): Option<Handles> { Logged(es).handles }

  /** Everything a trace does to files but write to the header, in order. */
  function Handled(es: seq<Event>): seq<Event> { Logged(es).handled }

  lemma {:induction false} TraceSnoc(es: seq<Event>, e: Event)
    ensures Logged(es + [e]) == Log(Logged(es), e)
  {
    assert (es + [e])[..|es|] == es;
  }

  // ----- what is on disk

  /** Opening the header for writing empties it; a write goes to its end. */
  function TextAfter(text: string, e: Event): string {
    match e
    case Fopen(HeaderFile) => ""
    case Write(s) => text + s
    case _ => text
  }

  /** The header on disk after a trace, from what was there `before`. */
  function OnDisk(before: string, es: seq<Event>): string {
    if es == [] then before else TextAfter(OnDisk(before, es[..|es| - 1]), es[|es| - 1])
  }

  /** A trace that starts by opening the header leaves nothing of what was there before. */
  lemma {:induction false} DiskIsText(before: string, es: seq<Event>)
    requires es != [] && es[0] == Fopen(HeaderFile)
    ensures OnDisk(before, es) == Logged(es).text
    decreases |es|
  {
    if |es| > 1 {
      DiskIsText(before, es[..|es| - 1]);
    }
  }

  // ----- the discipline of a run

  /** The files a process has open. */
  function FilesIn(h: Handles): multiset<Handle> {
    if h.input.None? then if h.output then multiset{HeaderFile} else multiset{}
    else if h.output then multiset{HeaderFile, Argument(h.input.value)}
    else multiset{Argument(h.input.value)}
  }

  lemma {:induction false} FewIn(h: Handles)
    ensures FewOpen(FilesIn(h))
  {
    if h.input.Some? {
      assert multiset{HeaderFile, Argument(h.input.value)}[HeaderFile] == 1;
    }
  }

  lemma {:induction false} EventFits(h: Handles, e: Event)
    requires Next(h, e).Some?
    ensures OnOpenFile(e, FilesIn(h))
  {
  }

  lemma OneMore<T>(a: T, b: T)
    requires a != b
    ensures multiset{a} + multiset{b} == multiset{a, b} && multiset{a, b} - multiset{b} == multiset{a}
    ensures multiset{} + multiset{a} == multiset{a} && multiset{a} - multiset{a} == multiset{}
  {
  }

  lemma {:induction false} FopenOpens(h: Handles, f: Handle)
    requires Next(h, Fopen(f)).Some?
    ensures FilesIn(Next(h, Fopen(f)).value) == FilesIn(h) + multiset{f}
  {
    if f.Argument? {
      OneMore(HeaderFile, f);
    } else {
      OneMore(f, Argument(0));
    }
  }

  lemma {:induction false} FcloseCloses(h: Handles, f: Handle)
    requires Next(h, Fclose(f)).Some?
    ensures FilesIn(Next(h, Fclose(f)).value) == FilesIn(h) - multiset{f}
  {
    if f.Argument? {
      OneMore(HeaderFile, f);
    } else {
      OneMore(f, Argument(0));
    }
  }

  lemma {:induction false} EventOpens(h: Handles, e: Event)
    requires Next(h, e).Some?
    ensures FilesIn(Next(h, e).value) == OpenAfter(FilesIn(h), e)
  {
    match e
    case Fopen(f) => FopenOpens(h, f);
    case Fclose(f) => FcloseCloses(h, f);
    case _ => assert Next(h, e).value == h;
  }

  lemma {:induction false} OpenFilesKnown(es: seq<Event>)
    requires HandlesAfter(es).Some?
    ensures OpenFiles(es) == FilesIn(HandlesAfter(es).value) && FewOpen(OpenFiles(es))
    decreases |es|
  {
    if es != [] {
      var k := |es| - 1;
      OpenFilesKnown(es[..k]);
      EventOpens(HandlesAfter(es[..k]).value, es[k]);
    }
    FewIn(HandlesAfter(es).value);
  }

  lemma {:induction false} PrefixFits(es: seq<Event>, k: nat)
    requires HandlesAfter(es).Some? && k <= |es|
    ensures HandlesAfter(es[..k]).Some?
    ensures k < |es| ==> HandlesAfter(es[..k + 1]) == Next(HandlesAfter(es[..k]).value, es[k])
    decreases |es|
  {
    var n := |es| - 1;
    if k < n {
      PrefixFits(es[..n], k);
      assert es[..n][..k] == es[..k] && es[..n][..k + 1] == es[..k + 1];
    } else if k == n {
      assert es[..k + 1] == es;
    } else {
      assert es[..k] == es;
    }
  }

  /** At every step at most two files and one argument are open, and the next event is on an open file. */
  ghost predicate Disciplined(es: seq<Event>) {
    && (forall k :: 0 <= k <= |es| ==> FewOpen(OpenFiles(es[..k])))
    && (forall k :: 0 <= k < |es| ==> OnOpenFile(es[k], OpenFiles(es[..k])))
  }

  lemma {:induction false} FittingIsDisciplined(es: seq<Event>)
    requires HandlesAfter(es).Some?
    ensures Disciplined(es)
  {
    forall k | 0 <= k <= |es| ensures FewOpen(OpenFiles(es[..k])) {
      PrefixFits(es, k);
      OpenFilesKnown(es[..k]);
    }
    forall k | 0 <= k < |es| ensures OnOpenFile(es[k], OpenFiles(es[..k])) {
      PrefixFits(es, k);
      PrefixFits(es, k + 1);
      OpenFilesKnown(es[..k]);
      EventFits(HandlesAfter(es[..k]).value, es[k]);
    }
  }

  /** Only the header can be opened first. */
  lemma {:induction false} HeaderComesFirst(es: seq<Event>)
    requires HandlesAfter(es).Some? && es != []
    ensures es[0] == Fopen(HeaderFile)
  {
    PrefixFits(es, 0);
    PrefixFits(es, 1);
    assert es[..0] == [];
  }

  lemma {:induction false} FinishedRun(es: seq<Event>)
    requires HandlesAfter(es) == Some(NO_HANDLES)
    ensures Disciplined(es) && OpenFiles(es) == multiset{}
    ensures es != [] ==> forall before: string :: OnDisk(before, es) == Logged(es).text
  {
    FittingIsDisciplined(es);
    OpenFilesKnown(es);
    if es != [] {
      HeaderComesFirst(es);
      forall before: string ensures OnDisk(before, es) == Logged(es).text {
        DiskIsText(before, es);
      }
    }
  }

  // ----- the files that are read

  /** The number of inputs before the first that cannot be opened. */
  function Readable(inputs: seq<Input>): (n: nat)
    ensures ReadableTo(inputs, n)
    ensures n < |inputs| ==> inputs[n].contents.None?
  {
    if inputs == [] || inputs[0].contents.None? then 0 else 1 + Readable(inputs[1..])
  }

  function FilesOf(inputs: seq<Input>): (fs: seq<File>)
    requires forall k :: 0 <= k < |inputs| ==> inputs[k].contents.Some?
    ensures |fs| == |inputs|
    ensures forall k :: 0 <= k < |fs| ==> fs[k] == File(inputs[k].name, inputs[k].contents.value)
  {
    seq(|inputs|, k requires 0 <= k < |inputs| => File(inputs[k].name, inputs[k].contents.value))
  }

  // ----- what a run does to its files, from its arguments

  function Reads(i: nat, k: nat): seq<Event> { seq(k, _ => Read(i)) }

  lemma {:induction false} ReadsSnoc(before: seq<Event>, i: nat, k: nat)
    ensures before + Reads(i, k) + [Read(i)] == before + Reads(i, k + 1)
  {
  }

  /** Argument `i` is opened, read to its end by one `fgetc` more than it has bytes, and closed. */
  function InputEvents(i: nat, size: nat): seq<Event> {
    [Fopen(Argument(i))] + Reads(i, size + 1) + [Fclose(Argument(i))]
  }

  function InputsEvents(inputs: seq<Input>, n: nat): seq<Event>
    requires ReadableTo(inputs, n)
  {
    if n == 0 then [] else InputsEvents(inputs, n - 1) + InputEvents(n, |inputs[n - 1].contents.value|)
  }

  /** The events of a whole run but its writes: the header is opened once, before all else, and closed after all else. */
  function RunEvents(inputs: seq<Input>): seq<Event> {
    var n := Readable(inputs);
    [Fopen(HeaderFile)] + InputsEvents(inputs, n) + RefusalAt(inputs, n) + [Fclose(HeaderFile)]
  }

  /** The attempt to open argument `n + 1`, if there is one. */
  function RefusalAt(inputs: seq<Input>, n: nat): seq<Event> { if n < |inputs| then [Refused(n + 1)] else [] }

  lemma {:induction false} InputShape(before: seq<Event>, a: seq<Event>, o: seq<Event>, r: seq<Event>, c: seq<Event>)
    ensures before + a + o + r + c == before + (a + (o + r + c))
  {
  }

  lemma {:induction false} InputDone(before: seq<Event>, inputs: seq<Input>, n: nat)
    requires ReadableTo(inputs, n + 1)
    ensures ReadableTo(inputs, n)
    ensures before + InputsEvents(inputs, n) + [Fopen(Argument(n + 1))] + Reads(n + 1, |inputs[n].contents.value| + 1) +
      [Fclose(Argument(n + 1))] == before + InputsEvents(inputs, n + 1)
  {
    InputShape(before, InputsEvents(inputs, n), [Fopen(Argument(n + 1))], Reads(n + 1, |inputs[n].contents.value| + 1),
               [Fclose(Argument(n + 1))]);
  }

  /** One turn of the loop over the bytes. */
  lemma {:induction false} BodyStep(base: string, s: seq<Byte>, j: nat, now: string, after: string)
    requires j < |s| && now == base + DataBody(s[..j]) && after == now + Separator(j) + EscapedByte(s[j])
    ensures after == base + DataBody(s[..j + 1])
  {
    assert s[..j + 1] == s[..j] + [s[j]];
    BodySnoc(s[..j], s[j]);
    Assoc4(base, DataBody(s[..j]), Separator(j), EscapedByte(s[j]));
  }

  lemma {:induction false} WholeBody(base: string, s: seq<Byte>)
    ensures base == base + DataBody(s[..0]) && s[..|s|] == s
  {
    assert DataBody(s[..0]) == "";
  }

  // ----- the process

  class Process {
    /** `argv` without the program's own name. */
    const inputs: seq<Input>
    /** What is in the header, once it has been opened. */
    var text: string
    /** How many bytes of the open input have been read. */
    var position: nat
    var outputOpen: bool
    var reading: Option<nat>
    var trace: seq<Event>

    ghost predicate Valid()
      reads this
    {
      && HandlesAfter(trace) == Some(Handles(outputOpen, reading))
      && Logged(trace).text == text
      && (reading.Some? ==>
            && 1 <= reading.value <= |inputs| && inputs[reading.value - 1].contents.Some?
            && position <= |inputs[reading.value - 1].contents.value|)
    }

    constructor (inputs: seq<Input>)
      ensures Valid() && this.inputs == inputs
      ensures text == "" && trace == [] && !outputOpen && reading == None
    {
      this.inputs := inputs;
      text, position, outputOpen, reading, trace := "", 0, false, None, [];
    }

    /** `fopen` of the header, which starts it empty. */
    method OpenHeader(ok: bool)
      requires Valid() && !outputOpen && reading == None
      modifies this
      ensures Valid() && outputOpen == ok && reading == None && text == (if ok then "" else old(text))
      ensures trace == old(trace) + (if ok then [Fopen(HeaderFile)] else [])
    {
      if ok {
        TraceSnoc(trace, Fopen(HeaderFile));
        outputOpen, text, trace := true, "", trace + [Fopen(HeaderFile)];
      }
    }

    method Print(s: string)
      requires Valid() && outputOpen
      modifies `text, `trace
      ensures Valid() && text == old(text) + s
      ensures Handled(trace) == Handled(old(trace))
    {
      TraceSnoc(trace, Write(s));
      text, trace := text + s, trace + [Write(s)];
    }

    /** `fopen` of argument `i`. */
    method Open(i: nat) returns (ok: bool)
      requires Valid() && outputOpen && reading == None && 1 <= i <= |inputs|
      modifies `position, `reading, `trace
      ensures Valid() && ok == inputs[i - 1].contents.Some?
      ensures reading == (if ok then Some(i) else None) && (ok ==> position == 0)
      ensures Handled(trace) == Handled(old(trace)) + [if ok then Fopen(Argument(i)) else Refused(i)]
    {
      ok := inputs[i - 1].contents.Some?;
      var e := if ok then Fopen(Argument(i)) else Refused(i);
      TraceSnoc(trace, e);
      trace := trace + [e];
      if ok {
        position, reading := 0, Some(i);
      }
    }

    /** `fgetc`: the next byte as a number, or EOF. */
    method Getc() returns (ch: int)
      requires Valid() && outputOpen && reading.Some?
      modifies `position, `trace
      ensures Valid() && Handled(trace) == Handled(old(trace)) + [Read(reading.value)]
      ensures var s := inputs[reading.value - 1].contents.value;
        if old(position) < |s| then ch == s[old(position)] as int && position == old(position) + 1
        else ch == EOF && position == old(position)
    {
      TraceSnoc(trace, Read(reading.value));
      trace := trace + [Read(reading.value)];
      var s := inputs[reading.value - 1].contents.value;
      if position < |s| {
        ch := s[position] as int;
        position := position + 1;
      } else {
        ch := EOF;
      }
    }

    method Close()
      requires Valid() && outputOpen && reading.Some?
      modifies `reading, `trace
      ensures Valid() && reading == None
      ensures Handled(trace) == Handled(old(trace)) + [Fclose(Argument(old(reading).value))]
    {
      var e := Fclose(Argument(reading.value));
      TraceSnoc(trace, e);
      trace, reading := trace + [e], None;
    }

    method CloseHeader()
      requires Valid() && outputOpen && reading == None
      modifies `outputOpen, `trace
      ensures Valid() && !outputOpen
      ensures Handled(trace) == Handled(old(trace)) + [Fclose(HeaderFile)]
    {
      TraceSnoc(trace, Fclose(HeaderFile));
      trace, outputOpen := trace + [Fclose(HeaderFile)], false;
    }

    /** The quotes around rows of 16 bytes. */
    method WriteSeparator(j: nat)
      requires Valid() && outputOpen
      modifies `text, `trace
      ensures Valid() && text == old(text) + Separator(j)
      ensures Handled(trace) == Handled(old(trace))
    {
      if j % 16 == 0 {
        if j > 0 {
          Print("\"");
        }
        Print("\n  \"");
      }
    }

    /** The body of the loop over the bytes, for byte number `j`. */
    method WriteByte(j: nat, ch: int)
      requires Valid() && outputOpen && 0 <= ch < 256
      modifies `text, `trace
      ensures Valid() && text == old(text) + Separator(j) + EscapedByte(ch as char)
      ensures Handled(trace) == Handled(old(trace))
    {
      WriteSeparator(j);
      Print("\\x" + Hex2(ch));
    }

    /** The same, as progress on the bytes `s`. */
    method WriteNext(j: nat, ch: int, ghost base: string, ghost s: seq<Byte>)
      requires Valid() && outputOpen && j < |s| && ch == s[j] as int && text == base + DataBody(s[..j])
      modifies `text, `trace
      ensures Valid() && text == base + DataBody(s[..j + 1])
      ensures Handled(trace) == Handled(old(trace))
    {
      WriteByte(j, ch);
      BodyStep(base, s, j, old(text), text);
    }

    /** The open input has the bytes `s`, of which `j` have been read. */
    ghost predicate HasRead(s: seq<Byte>, j: nat)
      reads this
    {
      Valid() && outputOpen && reading.Some? && inputs[reading.value - 1].contents == Some(s) && position == j <= |s|
    }

    /** `ch` is what `fgetc` delivered for byte number `j` of the bytes `s`, or EOF after the last. */
    ghost predicate Fetched(s: seq<Byte>, j: nat, ch: int)
      reads this
    {
      if j < |s| then HasRead(s, j + 1) && ch == s[j] as int else HasRead(s, |s|) && j == |s| && ch == EOF
    }

    /** `fgetc` of byte number `j`. */
    method Fetch(ghost s: seq<Byte>, ghost j: nat) returns (ch: int)
      requires HasRead(s, j)
      modifies `position, `trace
      ensures Fetched(s, j, ch)
      ensures Handled(trace) == Handled(old(trace)) + [Read(reading.value)]
    {
      ch := Getc();
    }

    /** Byte number `j` is written. */
    method WriteFetched(j: nat, ch: int, ghost base: string, ghost s: seq<Byte>)
      requires Fetched(s, j, ch) && ch != EOF && text == base + DataBody(s[..j])
      modifies `text, `trace
      ensures HasRead(s, j + 1) && text == base + DataBody(s[..j + 1])
      ensures Handled(trace) == Handled(old(trace))
    {
      WriteNext(j, ch, base, s);
    }

    /** One turn of the loop: byte number `j` is written and the next one is read. */
    method Turn(j: nat, ch: int, ghost base: string, ghost s: seq<Byte>) returns (next: int)
      requires Fetched(s, j, ch) && ch != EOF && text == base + DataBody(s[..j])
      modifies `text, `trace, `position
      ensures Fetched(s, j + 1, next) && text == base + DataBody(s[..j + 1])
      ensures Handled(trace) == Handled(old(trace)) + [Read(reading.value)]
    {
      WriteFetched(j, ch, base, s);
      next := Fetch(s, j + 1);
    }

    /** The loop over the bytes of the open input: after `j` of them the text holds their rendering. */
    method RenderBytes(ghost base: string, ghost s: seq<Byte>, first: int, ghost before: seq<Event>) returns (j: nat)
      requires Fetched(s, 0, first) && text == base + DataBody(s[..0])
      requires Handled(trace) == before + Reads(reading.value, 1)
      modifies `text, `trace, `position
      ensures Valid() && j == |s| && text == base + DataBody(s[..j])
      ensures Handled(trace) == before + Reads(reading.value, |s| + 1)
    {
      j := 0;
      var ch := first;
      while ch != EOF
        invariant Fetched(s, j, ch)
        invariant text == base + DataBody(s[..j])
        invariant Handled(trace) == before + Reads(reading.value, j + 1)
        decreases |s| - j
      {
        ch := Turn(j, ch, base, s);
        j := j + 1;
        ReadsSnoc(before, reading.value, j);
      }
    }

    method WriteBytes(ghost s: Contents) returns (j: nat)
      requires Valid() && outputOpen && reading.Some? && position == 0
      requires inputs[reading.value - 1].contents == Some(s)
      modifies `text, `trace, `position
      ensures Valid() && j == |s| && text == old(text) + DataBody(s)
      ensures Handled(trace) == Handled(old(trace)) + Reads(reading.value, |s| + 1)
    {
      var ch := Fetch(s, 0);
      WholeBody(old(text), s);
      ReadsSnoc(Handled(old(trace)), reading.value, 0);
      j := RenderBytes(old(text), s, ch, Handled(old(trace)));
    }

    method WriteName(i: nat, name: string)
      requires Valid() && outputOpen
      modifies `text, `trace
      ensures Valid() && text == old(text) + NameDecl(i, name)
      ensures Handled(trace) == Handled(old(trace))
    {
      Print("static const std::string translation_file_name_" + Dec(i) + " = \"" + name + "\";\n");
    }

    method WriteDataOpen(i: nat)
      requires Valid() && outputOpen
      modifies `text, `trace
      ensures Valid() && text == old(text) + DataOpen(i)
      ensures Handled(trace) == Handled(old(trace))
    {
      Print("static const std::string translation_file_data_" + Dec(i) + " = std::string(");
    }

    method WriteDataClose(j: nat)
      requires Valid() && outputOpen
      modifies `text, `trace
      ensures Valid() && text == old(text) + DataClose(j)
      ensures Handled(trace) == Handled(old(trace))
    {
      Print("\",\n  " + Dec(j) + ");\n\n");
    }

    /** The bytes of the open input and the end of its constant; the input is closed. */
    method WriteData(i: nat, ghost s: Contents)
      requires Valid() && outputOpen && reading == Some(i) && position == 0
      requires inputs[i - 1].contents == Some(s)
      modifies `text, `trace, `position, `reading
      ensures Valid() && reading == None && text == old(text) + (DataBody(s) + DataClose(|s|))
      ensures Handled(trace) == Handled(old(trace)) + Reads(i, |s| + 1) + [Fclose(Argument(i))]
    {
      var j := WriteBytes(s);
      WriteDataClose(j);
      Close();
      Assoc(old(text), DataBody(s), DataClose(|s|));
    }

    method WriteHeads(i: nat, name: string)
      requires Valid() && outputOpen
      modifies `text, `trace
      ensures Valid() && text == old(text) + (NameDecl(i, name) + DataOpen(i))
      ensures Handled(trace) == Handled(old(trace))
    {
      WriteName(i, name);
      WriteDataOpen(i);
      Assoc(old(text), NameDecl(i, name), DataOpen(i));
    }

    /** The body of the loop over the arguments, for one that was opened. */
    method WriteDefinition(i: nat, ghost f: File)
      requires Valid() && outputOpen && reading == Some(i) && position == 0
      requires f == File(inputs[i - 1].name, inputs[i - 1].contents.value)
      modifies `text, `trace, `position, `reading
      ensures Valid() && reading == None && text == old(text) + Definition(i, f)
      ensures Handled(trace) == Handled(old(trace)) + Reads(i, |f.contents| + 1) + [Fclose(Argument(i))]
    {
      WriteHeads(i, inputs[i - 1].name);
      WriteData(i, f.contents);
      PrintedDefinition(old(text), i, f);
    }

    /** From a text and the events before, the first `n` inputs have been dealt with. */
    ghost predicate Progress(base: string, before: seq<Event>, n: nat)
      reads this
    {
      && Valid() && outputOpen && reading == None
      && ReadableTo(inputs, n) && text == base + DefinitionsOf(inputs, n)
      && Handled(trace) == before + InputsEvents(inputs, n)
    }

    /** The same, and argument `n + 1`, if there is one, cannot be opened. */
    ghost predicate Stopped(base: string, before: seq<Event>, n: nat)
      reads this
    {
      && Valid() && outputOpen && reading == None
      && ReadableTo(inputs, n) && text == base + DefinitionsOf(inputs, n)
      && (n < |inputs| ==> inputs[n].contents.None?)
      && Handled(trace) == before + InputsEvents(inputs, n) + RefusalAt(inputs, n)
    }

    /** One turn of the loop over the arguments, for argument `n + 1`. */
    method WriteInput(n: nat, ghost base: string, ghost before: seq<Event>) returns (ok: bool)
      requires Progress(base, before, n) && n < |inputs|
      modifies `text, `trace, `position, `reading
      ensures ok == inputs[n].contents.Some?
      ensures if ok then Progress(base, before, n + 1) else Stopped(base, before, n)
    {
      ok := Open(n + 1);
      if ok {
        ghost var f := File(inputs[n].name, inputs[n].contents.value);
        WriteDefinition(n + 1, f);
        DefinitionsStep(base, inputs, n, f);
        InputDone(before, inputs, n);
      }
    }

    /** The loop over the arguments: it stops at the first that cannot be opened. */
    method WriteInputs(ghost base: string, ghost before: seq<Event>) returns (n: nat)
      requires Progress(base, before, 0)
      modifies `text, `trace, `position, `reading
      ensures Stopped(base, before, n)
    {
      n := 0;
      var ok := true;
      while ok && n < |inputs|
        invariant n <= |inputs|
        invariant if ok then Progress(base, before, n) else Stopped(base, before, n)
        decreases |inputs| - n, ok
      {
        ok := WriteInput(n, base, before);
        if ok {
          n := n + 1;
        }
      }
    }

    method WriteDefinitions() returns (n: nat)
      requires Valid() && outputOpen && reading == None
      modifies `text, `trace, `position, `reading
      ensures n == Readable(inputs) && Stopped(old(text), Handled(old(trace)), n)
    {
      StartProgress(text, inputs, Handled(trace));
      n := WriteInputs(text, Handled(trace));
      ReadableIs(inputs, n);
    }

    /** Two lines one after the other. */
    method Print2(a: string, b: string)
      requires Valid() && outputOpen
      modifies `text, `trace
      ensures Valid() && text == old(text) + (a + b)
      ensures Handled(trace) == Handled(old(trace))
    {
      Print(a);
      Print(b);
      Assoc(old(text), a, b);
    }

    method WritePrologue()
      requires Valid() && outputOpen
      modifies `text, `trace
      ensures Valid() && text == old(text) + PROLOGUE
      ensures Handled(trace) == Handled(old(trace))
    {
      Print("#ifndef TRANSLATION_FILES_H\n");
      Print2("#define TRANSLATION_FILES_H\n\n", "#include <string>\n\n");
      Assoc(old(text), "#ifndef TRANSLATION_FILES_H\n", "#define TRANSLATION_FILES_H\n\n" + "#include <string>\n\n");
    }

    method WriteTableOpen()
      requires Valid() && outputOpen
      modifies `text, `trace
      ensures Valid() && text == old(text) + TABLE_OPEN
      ensures Handled(trace) == Handled(old(trace))
    {
      Print2("static const struct embedded_file {\n", "  const std::string *name;\n");
      Print2("  const std::string *data;\n", "} embedded_files[] = {\n");
      TableOpenShape(old(text), "static const struct embedded_file {\n", "  const std::string *name;\n",
                     "  const std::string *data;\n", "} embedded_files[] = {\n");
    }

    /** The loop over the rows of the table. */
    method WriteRows()
      requires Valid() && outputOpen
      modifies `text, `trace
      ensures Valid() && text == old(text) + Rows(1, |inputs| + 1)
      ensures Handled(trace) == Handled(old(trace))
    {
      var i := 1;
      assert Rows(1, 1) == "";
      while i <= |inputs|
        invariant Valid() && 1 <= i <= |inputs| + 1
        invariant text == old(text) + Rows(1, i)
        invariant Handled(trace) == Handled(old(trace))
      {
        WriteRow(i, old(text));
        i := i + 1;
      }
    }

    method WriteRow(i: nat, ghost base: string)
      requires Valid() && outputOpen && 1 <= i && text == base + Rows(1, i)
      modifies `text, `trace
      ensures Valid() && text == base + Rows(1, i + 1)
      ensures Handled(trace) == Handled(old(trace))
    {
      Print("  {&translation_file_name_" + Dec(i) + ", &translation_file_data_" + Dec(i) + "},\n");
      RowsSnoc(1, i, i + 1);
      Assoc(base, Rows(1, i), Row(i));
    }

    /** The table, the lookup function and the end of the guard. */
    method WriteClosing()
      requires Valid() && outputOpen
      modifies `text, `trace
      ensures Valid() && text == old(text) + Closing(|inputs|)
      ensures Handled(trace) == Handled(old(trace))
    {
      WriteTableOpen();
      WriteRows();
      Print2("  {NULL, NULL}\n", "};\n\n");
      Print(LOOKUP + "\n");
      Print(EPILOGUE);
      ClosingShape(old(text), TABLE_OPEN, Rows(1, |inputs| + 1), TABLE_CLOSE, LOOKUP, "\n", EPILOGUE);
    }

    method WriteStart() returns (n: nat)
      requires Valid() && outputOpen && reading == None && text == ""
      modifies `text, `trace, `position, `reading
      ensures n == Readable(inputs) && Stopped(PROLOGUE, Handled(old(trace)), n)
    {
      WritePrologue();
      assert "" + PROLOGUE == PROLOGUE;
      n := WriteDefinitions();
    }

    /** The rest of the header, if all inputs could be opened. */
    method WriteEnd(n: nat, ghost before: seq<Event>)
      requires Stopped(PROLOGUE, before, n) && n == Readable(inputs)
      modifies `text, `trace
      ensures Valid() && text == Output(inputs)
      ensures Handled(trace) == Handled(old(trace))
    {
      if n == |inputs| {
        WriteClosing();
        WholeOutput(inputs);
      } else {
        PartialOutput(inputs);
      }
    }

    /** Everything between opening the header and closing it. */
    method WriteHeader() returns (n: nat)
      requires Valid() && outputOpen && reading == None && text == ""
      modifies `text, `trace, `position, `reading
      ensures Valid() && reading == None && n == Readable(inputs) && text == Output(inputs)
      ensures Handled(trace) == Handled(old(trace)) + InputsEvents(inputs, n) + RefusalAt(inputs, n)
    {
      n := WriteStart();
      WriteEnd(n, Handled(old(trace)));
    }

    /** The run once the header is open. */
    method Generate() returns (complete: bool)
      requires Valid() && outputOpen && reading == None && text == "" && Handled(trace) == [Fopen(HeaderFile)]
      modifies `text, `trace, `position, `reading, `outputOpen
      ensures Valid() && reading == None && !outputOpen
      ensures complete == (Readable(inputs) == |inputs|)
      ensures text == Output(inputs) && Handled(trace) == RunEvents(inputs)
    {
      var n := WriteHeader();
      CloseHeader();
      complete := n == |inputs|;
    }

    /**
     * A whole run. Whatever the header held before, it then holds the header of all the
     * files, or, when one cannot be opened, exactly the definitions of those before it; if it
     * cannot be opened itself, nothing is done. The header is opened once and first, each
     * input once and in order, read to its end and closed. At every step at most two files
     * are open, one of them an argument at most, what is written, read or closed is open, and
     * in the end nothing is. The exit status is zero exactly when everything could be opened.
     */
    method Run(headerOpens: bool) returns (status: int)
      requires Valid() && trace == [] && !outputOpen && reading == None
      modifies this
      ensures Valid() && Disciplined(trace) && OpenFiles(trace) == multiset{}
      ensures forall before: string :: OnDisk(before, trace) == if headerOpens then Output(inputs) else before
      ensures headerOpens ==> Handled(trace) == RunEvents(inputs)
      ensures !headerOpens ==> trace == []
      ensures status == 0 <==> headerOpens && forall k :: 0 <= k < |inputs| ==> inputs[k].contents.Some?
      ensures status == 0 || status == 1
    {
      OpenHeader(headerOpens);
      if headerOpens {
        TraceSnoc([], Fopen(HeaderFile));
        var complete := Generate();
        status := if complete then EXIT_SUCCESS else EXIT_FAILURE;
      } else {
        status := EXIT_FAILURE;
      }
      FinishedRun(trace);
    }
  }

  /** What a run leaves in the header. */
  function Output(inputs: seq<Input>): string {
    var n := Readable(inputs);
    if n < |inputs| then Aborted(FilesOf(inputs[..n])) else Header(FilesOf(inputs))
  }

  lemma {:induction false} HeaderOfInputs(inputs: seq<Input>, n: nat, fs: seq<File>)
    requires n == |inputs| && ReadableTo(inputs, n) && fs == FilesOf(inputs)
    ensures Header(fs) == PROLOGUE + DefinitionsOf(inputs, n) + Closing(n)
  {
    assert FilesOf(inputs[..n]) == fs;
  }

  lemma {:induction false} WholeOutput(inputs: seq<Input>)
    requires Readable(inputs) == |inputs|
    ensures Output(inputs) == PROLOGUE + DefinitionsOf(inputs, |inputs|) + Closing(|inputs|)
  {
    HeaderOfInputs(inputs, |inputs|, FilesOf(inputs));
  }

  lemma {:induction false} PartialOutput(inputs: seq<Input>)
    requires Readable(inputs) < |inputs|
    ensures Output(inputs) == PROLOGUE + DefinitionsOf(inputs, Readable(inputs))
  {
  }

  lemma TableOpenShape(t: string, a: string, b: string, c: string, d: string)
    ensures t + (a + b) + (c + d) == t + (a + (b + (c + d)))
  {
  }

  lemma ClosingShape(t: string, a: string, b: string, c: string, l: string, n: string, e: string)
    ensures t + a + b + c + (l + n) + e == t + (a + b + c + l + n + e)
  {
  }

  lemma {:induction false} StartProgress(base: string, inputs: seq<Input>, before: seq<Event>)
    ensures base == base + DefinitionsOf(inputs, 0) && before == before + InputsEvents(inputs, 0)
  {
    assert DefinitionsOf(inputs, 0) == "";
  }

  /** The first `n` inputs can be opened. */
  predicate ReadableTo(inputs: seq<Input>, n: nat) {
    n <= |inputs| && forall k :: 0 <= k < n ==> inputs[k].contents.Some?
  }

  /** The definitions of the first `n` inputs. */
  function DefinitionsOf(inputs: seq<Input>, n: nat): string
    requires ReadableTo(inputs, n)
  {
    Definitions(FilesOf(inputs[..n]), 1)
  }

  lemma {:induction false} ReadableIs(inputs: seq<Input>, n: nat)
    requires ReadableTo(inputs, n) && (n < |inputs| ==> inputs[n].contents.None?)
    ensures Readable(inputs) == n
    decreases n
  {
    if n > 0 {
      ReadableIs(inputs[1..], n - 1);
    }
  }

  /** One turn of the loop over the arguments. */
  lemma {:induction false} DefinitionsStep(base: string, inputs: seq<Input>, n: nat, f: File)
    requires ReadableTo(inputs, n) && n < |inputs| && inputs[n].contents.Some?
    requires f == File(inputs[n].name, inputs[n].contents.value)
    ensures ReadableTo(inputs, n + 1)
    ensures base + DefinitionsOf(inputs, n) + Definition(n + 1, f) == base + DefinitionsOf(inputs, n + 1)
  {
    var fs := FilesOf(inputs[..n]);
    assert FilesOf(inputs[..n + 1]) == fs + [f];
    DefinitionsSnoc(fs, f, n + 1);
    Assoc(base, Definitions(fs, 1), Definition(n + 1, f));
  }

  lemma PrintedShape(t: string, a: string, b: string, c: string, d: string)
    ensures t + (a + b) + (c + d) == t + (a + b + c + d)
  {
  }

  lemma {:induction false} PrintedDefinition(t: string, i: nat, f: File)
    ensures t + (NameDecl(i, f.name) + DataOpen(i)) + (DataBody(f.contents) + DataClose(|f.contents|)) == t + Definition(i, f)
  {
    PrintedShape(t, NameDecl(i, f.name), DataOpen(i), DataBody(f.contents), DataClose(|f.contents|));
  }
}
