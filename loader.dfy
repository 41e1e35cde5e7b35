/**
 * Applying a dotenv file to the process environment: `loadFromReader`, the
 * `Load` entry point that finds and opens the file first, the debug mask and
 * the `GetEnv` accessors.
 */
module Loader {
  import opened Results
  import opened Text
  import opened LineParser
  import opened Options
  import opened Locator

  /**
   * The process environment. `os.Setenv` can be refused by the host; which
   * pairs it accepts is not this library's business, so it is the `accepts`
   * relation fixed when the environment is made.
   */
  class Environment {
    var vars: map<string, string>
    const accepts: (string, string) -> bool

    constructor (vars: map<string, string>, accepts: (string, string) -> bool)
      ensures this.vars == vars && this.accepts == accepts
    {
      this.vars := vars;
      this.accepts := accepts;
    }

    /** `os.Getenv`: the empty string for a variable that is not set. */
    function Getenv(key: string): (v: string)
      reads this
      ensures v == "" <==> Unset(vars, key)
      ensures key in vars ==> v == vars[key]
    {
      if key in vars then vars[key] else ""
    }

    /** `os.Setenv`: on success the variable holds `value`; on refusal nothing changes. */
    method Setenv(key: string, value: string) returns (ok: bool)
      modifies this
      ensures ok == accepts(key, value)
      ensures vars == if ok then old(vars)[key := value] else old(vars)
    {
      ok := accepts(key, value);
      if ok {
        vars := vars[key := value];
      }
    }
  }

  /** `os.Getenv(key) == ""`: the variable is absent or empty. */
  predicate Unset(vars: map<string, string>, key: string)
  {
    key !in vars || vars[key] == ""
  }

  /** What a load reports besides its count. */
  datatype LoadError =
    | FileNotFound(pathname: string)
    | OpenFailed(path: Path)
    | SetFailed(key: string)
    | ReadFailed

  /** The state of the apply loop: the environment, the count so far, and the key whose set failed, if any. */
  datatype Outcome = Outcome(vars: map<string, string>, loaded: nat, failed: Option<string>)


  /** The entry a raw input line contributes: none for blank lines, comments and lines that do not parse. */
  function EntryOf(raw: string): (r: Option<Entry>)
    ensures r.Some? ==> ValidKey(r.value.key)
  {
    EntryOfLine(TrimSpace(raw))
  }

  /** The entry of a line already trimmed. */
  function EntryOfLine(line: string): (r: Option<Entry>)
    ensures r.Some? <==> line != "" && !HasPrefix(line, "#") && LineEntry(line).Ok?
    ensures r.Some? ==> LineEntry(line) == Ok(r.value)
  {
    if line == "" || HasPrefix(line, "#") then None
    else match LineEntry(line)
      case Fail(_) => None
      case Ok(e) => Some(e)
  }

  /** The loop's first half: each line read, trimmed and parsed, in order. */
  function EntriesOf(lines: seq<string>): (r: seq<Option<Entry>>)
    ensures |r| == |lines|
  {
    if lines == [] then []
    else EntriesOf(lines[..|lines| - 1]) + [EntryOf(lines[|lines| - 1])]
  }

  lemma EntriesOfPrefix(lines: seq<string>, i: nat)
    requires i < |lines|
    ensures EntriesOf(lines[..i + 1]) == EntriesOf(lines[..i]) + [EntryOf(lines[i])]
  {
    assert lines[..i + 1][..i] == lines[..i];
  }

  /** The `i`th entry is the `i`th line's. */
  lemma {:induction false} EntriesOfIndex(lines: seq<string>, i: nat)
    requires i < |lines|
    ensures EntriesOf(lines)[i] == EntryOf(lines[i])
    decreases |lines|
  {
    if i < |lines| - 1 {
      EntriesOfIndex(lines[..|lines| - 1], i);
    }
  }

  /** One entry: it is set only when the variable is unset or `overwrite` is on; a refused set records its key. */
  function ApplyEntry(o: Outcome, e: Option<Entry>, overwrite: bool, accepts: (string, string) -> bool): (r: Outcome)
    requires o.failed.None?
    ensures r.loaded == o.loaded || r.loaded == o.loaded + 1
    ensures r.loaded == o.loaded + 1 <==>
              e.Some? && (overwrite || Unset(o.vars, e.value.key)) && accepts(e.value.key, e.value.value)
    ensures r.loaded == o.loaded + 1 ==> r.failed.None? && r.vars == o.vars[e.value.key := e.value.value]
    ensures r.loaded == o.loaded ==> r.vars == o.vars
    ensures r.failed.Some? <==>
              e.Some? && (overwrite || Unset(o.vars, e.value.key)) && !accepts(e.value.key, e.value.value)
    ensures r.failed.Some? ==> r.failed.value == e.value.key
  {
    match e
    case None => o
    case Some(Entry(k, v)) =>
      if overwrite || Unset(o.vars, k) then
        if accepts(k, v) then Outcome(o.vars[k := v], o.loaded + 1, None)
        else o.(failed := Some(k))
      else o
  }

  /** The loop's second half: entries applied in order, stopping at the first refused set. */
  function ApplyEntries(o: Outcome, es: seq<Option<Entry>>, overwrite: bool, accepts: (string, string) -> bool): Outcome
    decreases |es|
  {
    if es == [] then o
    else
      var prev := ApplyEntries(o, es[..|es| - 1], overwrite, accepts);
      if prev.failed.Some? then prev else ApplyEntry(prev, es[|es| - 1], overwrite, accepts)
  }

  /** The whole loop of `loadFromReader` over the lines of a file. */
  function ApplyLines(o: Outcome, lines: seq<string>, overwrite: bool, accepts: (string, string) -> bool): Outcome
  {
    ApplyEntries(o, EntriesOf(lines), overwrite, accepts)
  }

  /** The error `loadFromReader` reports: a refused set first, then a read failure of the stream. */
  function ReaderError(o: Outcome, readFailed: bool): (r: Option<LoadError>)
    ensures r.None? <==> o.failed.None? && !readFailed
    ensures r == Some(ReadFailed) <==> o.failed.None? && readFailed
  {
    if o.failed.Some? then Some(SetFailed(o.failed.value))
    else if readFailed then Some(ReadFailed)
    else None
  }

  /**
   * The body of the `loadFromReader` loop for one raw line: trim, skip blank
   * lines and comments, parse, and set the variable when it is unset or
   * `overwrite` is on. `counted` says the count goes up; `failed` names a key the
   * host refused.
   */
  method LoadLine(env: Environment, lines: seq<string>, i: nat, overwrite: bool, ghost loaded: nat) returns (counted: bool, failed: Option<string>)
    requires i < |lines|
    modifies env
    ensures var o := ApplyEntry(Outcome(old(env.vars), loaded, None), EntriesOf(lines)[i], overwrite, env.accepts);
            env.vars == o.vars && o.loaded == (if counted then loaded + 1 else loaded) && o.failed == failed
  {
    EntriesOfIndex(lines, i);
    var line := TrimSpace(lines[i]);
    if line == "" || HasPrefix(line, "#") {
      return false, None;
    }
    var key, value, parseErr := ParseLine(line);
    if parseErr.Some? {
      return false, None;
    }
    if overwrite || env.Getenv(key) == "" {
      var ok := env.Setenv(key, value);
      if !ok {
        return false, Some(key);
      }
      return true, None;
    }
    return false, None;
  }

  /**
   * `loadFromReader`: the lines the scanner delivered, then whether the
   * scanner stopped on a read error. Debug logging is not modelled.
   */
  method LoadFromReader(env: Environment, lines: seq<string>, readFailed: bool, options: LoadOptions)
    returns (loaded: nat, err: Option<LoadError>)
    modifies env
    ensures var o := ApplyLines(Outcome(old(env.vars), 0, None), lines, options.overwrite, env.accepts);
            env.vars == o.vars && loaded == o.loaded && err == ReaderError(o, readFailed)
  {
    ghost var start := Outcome(env.vars, 0, None);
    ghost var entries := EntriesOf(lines);
    loaded := 0;
    var i := 0;
    while i < |lines|
      invariant 0 <= i <= |lines|
      invariant ApplyEntries(start, entries[..i], options.overwrite, env.accepts) == Outcome(env.vars, loaded, None)
    {
      ApplyEntriesSnoc(start, entries[..i], entries[i], options.overwrite, env.accepts);
      assert entries[..i + 1] == entries[..i] + [entries[i]];
      var counted, failed := LoadLine(env, lines, i, options.overwrite, loaded);
      if failed.Some? {
        StopsAtFailure(start, entries, i + 1, options.overwrite, env.accepts);
        return loaded, Some(SetFailed(failed.value));
      }
      if counted {
        loaded := loaded + 1;
      }
      i := i + 1;
    }
    assert entries[..i] == entries;
    if readFailed {
      return loaded, Some(ReadFailed);
    }
    return loaded, None;
  }

  /** `Load` with the file system as data: existing paths, and each openable file's lines and read status. */
  datatype FileText = FileText(lines: seq<string>, readFailed: bool)

  /**
   * `Load`: default the options, find the file, open it, and apply it. A
   * missing or unopenable file leaves the environment alone and loads nothing.
   */
  method Load(env: Environment, existing: set<Path>, files: map<Path, FileText>, cwd: Path, opts: seq<Option<LoadOptions>>)
    returns (loaded: nat, err: Option<LoadError>)
    modifies env
    ensures var options := ParseOptions(opts);
            match Locate(existing, cwd, options.pathname, options.maxLevels)
            case Fail(_) =>
              loaded == 0 && err == Some(FileNotFound(options.pathname)) && env.vars == old(env.vars)
            case Ok(p) =>
              var path := Resolve(cwd, p);
              if path !in files then
                loaded == 0 && err == Some(OpenFailed(path)) && env.vars == old(env.vars)
              else
                var o := ApplyLines(Outcome(old(env.vars), 0, None), files[path].lines, options.overwrite, env.accepts);
                env.vars == o.vars && loaded == o.loaded && err == ReaderError(o, files[path].readFailed)
  {
    var options := ParseOptions(opts);
    var found := FindEnvFile(existing, cwd, options.pathname, options.maxLevels);
    if found.Fail? {
      return 0, Some(FileNotFound(options.pathname));
    }
    var path := Resolve(cwd, found.value);
    if path !in files {
      return 0, Some(OpenFailed(path));
    }
    loaded, err := LoadFromReader(env, files[path].lines, files[path].readFailed, options);
  }

  // ---------------------------------------------------------------- debug mask and accessors

  function Repeat(c: char, n: nat): (r: string)
    ensures |r| == n && forall i :: 0 <= i < n ==> r[i] == c
  {
    if n == 0 then [] else Repeat(c, n - 1) + [c]
  }

  /** The value as debug output shows it: one `*` per character below five characters, `***` from five on. */
  function DebugMask(value: string): (mask: string)
    ensures forall i :: 0 <= i < |mask| ==> mask[i] == '*'
    ensures |mask| == if |value| < 5 then |value| else 3
  {
    if |value| < 5 then Repeat('*', |value|) else "***"
  }

  /** The mask depends on the length of the value alone, so it reveals nothing else. */
  lemma MaskRevealsOnlyLength(v: string, w: string)
    requires |v| == |w| || (|v| >= 5 && |w| >= 5)
    ensures DebugMask(v) == DebugMask(w)
  {
  }

  /** `GetEnv`: the variable's value when it is set and non-empty, the default otherwise. */
  function GetEnv(env: Environment, key: string, defaultValue: string): (r: string)
    reads env
    ensures !Unset(env.vars, key) ==> r == env.vars[key]
    ensures Unset(env.vars, key) ==> r == defaultValue
  {
    var value := env.Getenv(key);
    if value != "" then value else defaultValue
  }

  /** `GetEnvOrPanic`, with its panic as the precondition: a set, non-empty variable. */
  function GetEnvOrPanic(env: Environment, key: string): (r: string)
    reads env
    requires !Unset(env.vars, key)
    ensures r != "" && key in env.vars && r == env.vars[key]
  {
    env.Getenv(key)
  }

  // ---------------------------------------------------------------- properties of the loop

  /** Parsing line by line commutes with splitting the input. */
  lemma {:induction false} EntriesOfAppend(a: seq<string>, b: seq<string>)
    ensures EntriesOf(a + b) == EntriesOf(a) + EntriesOf(b)
    decreases |b|
  {
    if b == [] {
      assert a + b == a;
    } else {
      assert (a + b)[..|a + b| - 1] == a + b[..|b| - 1];
      EntriesOfAppend(a, b[..|b| - 1]);
    }
  }

  /** One more entry: the loop over `es + [e]` is one `ApplyEntry` after the loop over `es`, unless that failed. */
  lemma ApplyEntriesSnoc(o: Outcome, es: seq<Option<Entry>>, e: Option<Entry>, overwrite: bool, accepts: (string, string) -> bool)
    ensures var prev := ApplyEntries(o, es, overwrite, accepts);
            ApplyEntries(o, es + [e], overwrite, accepts) == if prev.failed.Some? then prev else ApplyEntry(prev, e, overwrite, accepts)
  {
    assert (es + [e])[..|es|] == es;
  }

  /** A loop that has failed stays failed: no later line runs. */
  lemma {:induction false} FailedStaysFailed(o: Outcome, es: seq<Option<Entry>>, overwrite: bool, accepts: (string, string) -> bool)
    requires o.failed.Some?
    ensures ApplyEntries(o, es, overwrite, accepts) == o
    decreases |es|
  {
    if es != [] {
      FailedStaysFailed(o, es[..|es| - 1], overwrite, accepts);
    }
  }

  /** Running the loop over `a + b` is running it over `a`, then over `b` from where it stopped. */
  lemma {:induction false} ApplyEntriesAppend(o: Outcome, a: seq<Option<Entry>>, b: seq<Option<Entry>>, overwrite: bool, accepts: (string, string) -> bool)
    ensures ApplyEntries(o, a + b, overwrite, accepts) == ApplyEntries(ApplyEntries(o, a, overwrite, accepts), b, overwrite, accepts)
    decreases |b|
  {
    if b == [] {
      assert a + b == a;
    } else {
      assert (a + b)[..|a + b| - 1] == a + b[..|b| - 1];
      ApplyEntriesAppend(o, a, b[..|b| - 1], overwrite, accepts);
    }
  }

  /** A set refused on line `i - 1` ends the load there, whatever follows. */
  lemma StopsAtFailure(o: Outcome, es: seq<Option<Entry>>, i: nat, overwrite: bool, accepts: (string, string) -> bool)
    requires i <= |es|
    requires ApplyEntries(o, es[..i], overwrite, accepts).failed.Some?
    ensures ApplyEntries(o, es, overwrite, accepts) == ApplyEntries(o, es[..i], overwrite, accepts)
  {
    assert es[..i] + es[i..] == es;
    ApplyEntriesAppend(o, es[..i], es[i..], overwrite, accepts);
    FailedStaysFailed(ApplyEntries(o, es[..i], overwrite, accepts), es[i..], overwrite, accepts);
  }

  /** Each line adds at most one to the count. */
  lemma {:induction false} LoadedAtMostEntries(o: Outcome, es: seq<Option<Entry>>, overwrite: bool, accepts: (string, string) -> bool)
    ensures o.loaded <= ApplyEntries(o, es, overwrite, accepts).loaded <= o.loaded + |es|
    decreases |es|
  {
    if es != [] {
      LoadedAtMostEntries(o, es[..|es| - 1], overwrite, accepts);
    }
  }

  /** A file of `n` lines loads at most `n` variables. */
  lemma LoadedAtMostLines(vars: map<string, string>, lines: seq<string>, overwrite: bool, accepts: (string, string) -> bool)
    ensures ApplyLines(Outcome(vars, 0, None), lines, overwrite, accepts).loaded <= |lines|
  {
    LoadedAtMostEntries(Outcome(vars, 0, None), EntriesOf(lines), overwrite, accepts);
  }

  /** Blank lines, comments and lines that do not parse change neither the environment nor the count. */
  lemma SkippedLineNoEffect(o: Outcome, lines: seq<string>, raw: string, overwrite: bool, accepts: (string, string) -> bool)
    requires EntryOf(raw).None?
    ensures ApplyLines(o, lines + [raw], overwrite, accepts) == ApplyLines(o, lines, overwrite, accepts)
  {
    EntriesOfPrefix(lines + [raw], |lines|);
    assert (lines + [raw])[..|lines| + 1] == lines + [raw];
    assert (lines + [raw])[..|lines|] == lines;
    ApplyEntriesSnoc(o, EntriesOf(lines), None, overwrite, accepts);
  }

  /** The entries that are present, in order. */
  function Present(es: seq<Option<Entry>>): (r: seq<Option<Entry>>)
    ensures |r| <= |es|
  {
    if es == [] then []
    else if es[|es| - 1].None? then Present(es[..|es| - 1])
    else Present(es[..|es| - 1]) + [es[|es| - 1]]
  }

  /** Dropping every skipped line from the input changes nothing. */
  lemma {:induction false} OnlyEntriesMatter(o: Outcome, es: seq<Option<Entry>>, overwrite: bool, accepts: (string, string) -> bool)
    ensures ApplyEntries(o, Present(es), overwrite, accepts) == ApplyEntries(o, es, overwrite, accepts)
    decreases |es|
  {
    if es != [] {
      var init, last := es[..|es| - 1], es[|es| - 1];
      OnlyEntriesMatter(o, init, overwrite, accepts);
      assert init + [last] == es;
      ApplyEntriesSnoc(o, init, last, overwrite, accepts);
      if last.Some? {
        ApplyEntriesSnoc(o, Present(init), last, overwrite, accepts);
      }
    }
  }

  /** The keys the entries set or try to set. */
  function Keys(es: seq<Option<Entry>>): set<string>
  {
    if es == [] then {}
    else
      var e := es[|es| - 1];
      Keys(es[..|es| - 1]) + if e.Some? then {e.value.key} else {}
  }

  /** A variable no line names keeps its state: still unset, or still holding the same value. */
  lemma {:induction false} OtherVariablesUntouched(o: Outcome, es: seq<Option<Entry>>, overwrite: bool, accepts: (string, string) -> bool, k: string)
    requires k !in Keys(es)
    ensures var r := ApplyEntries(o, es, overwrite, accepts);
            (k in r.vars <==> k in o.vars) && (k in o.vars ==> r.vars[k] == o.vars[k])
    decreases |es|
  {
    if es != [] {
      OtherVariablesUntouched(o, es[..|es| - 1], overwrite, accepts, k);
    }
  }

  /** Without `overwrite`, a variable that is already set and non-empty is never changed. */
  lemma {:induction false} NoOverwriteKeepsSetVariables(o: Outcome, es: seq<Option<Entry>>, accepts: (string, string) -> bool, k: string)
    requires !Unset(o.vars, k)
    ensures var r := ApplyEntries(o, es, false, accepts);
            k in r.vars && r.vars[k] == o.vars[k]
    decreases |es|
  {
    if es != [] {
      NoOverwriteKeepsSetVariables(o, es[..|es| - 1], accepts, k);
    }
  }

  /** A host that refuses nothing never makes the loop fail. */
  lemma {:induction false} NeverFails(o: Outcome, es: seq<Option<Entry>>, overwrite: bool, accepts: (string, string) -> bool)
    requires o.failed.None?
    requires forall key, value :: accepts(key, value)
    ensures ApplyEntries(o, es, overwrite, accepts).failed.None?
    decreases |es|
  {
    if es != [] {
      NeverFails(o, es[..|es| - 1], overwrite, accepts);
    }
  }

  /** The value the last entry naming `k` gives it, if any entry does. */
  function LastValue(es: seq<Option<Entry>>, k: string): Option<string>
  {
    if es == [] then None
    else
      var e := es[|es| - 1];
      if e.Some? && e.value.key == k then Some(e.value.value) else LastValue(es[..|es| - 1], k)
  }

  /** With `overwrite` and a host that refuses nothing, the last line naming a variable decides its value. */
  lemma {:induction false} OverwriteLastWins(o: Outcome, es: seq<Option<Entry>>, accepts: (string, string) -> bool, k: string)
    requires o.failed.None?
    requires forall key, value :: accepts(key, value)
    requires LastValue(es, k).Some?
    ensures var r := ApplyEntries(o, es, true, accepts);
            r.failed.None? && k in r.vars && r.vars[k] == LastValue(es, k).value
    decreases |es|
  {
    var init, last := es[..|es| - 1], es[|es| - 1];
    NeverFails(o, init, true, accepts);
    if !(last.Some? && last.value.key == k) {
      OverwriteLastWins(o, init, accepts, k);
    }
  }

  // ---------------------------------------------------------------- examples

  /** A line with no white space at its ends is its own trimmed form, so its entry is the parser's. */
  lemma EntryOfTrimmed(raw: string)
    requires raw != [] && Trimmed(raw) && raw[0] != '#'
    ensures EntryOf(raw) == if LineEntry(raw).Ok? then Some(LineEntry(raw).value) else None
  {
    TrimSpaceTrimmed(raw);
    HasPrefixChar(raw, '#');
  }

  lemma ExampleEntryOfSet()
    ensures EntryOf("DB_PORT=8080") == Some(Entry("DB_PORT", "8080"))
  {
    var l := "DB_PORT=8080";
    ExampleSimple();
    EntryOfTrimmed(l);
  }

  lemma ExampleEntryOfComment()
    ensures EntryOf("# comment") == None
  {
    var l := "# comment";
    assert [] + l + [] == l;
    TrimSpaceAround([], l, []);
    assert HasPrefix(TrimSpace(l), "#");
  }

  lemma ExampleEntryOfExport()
    ensures EntryOf("export NAME=\"John Doe\"") == Some(Entry("NAME", "John Doe"))
  {
    ExampleExport();
    EntryOfTrimmed("export NAME=\"John Doe\"");
  }

  lemma ExampleEntryOfExportShort()
    ensures EntryOf("export NAME=\"A\"") == Some(Entry("NAME", "A"))
  {
    var pre, k, e, inner := " ", "NAME", "", "A";
    var v := ['"'] + inner + ['"'];
    assert "export" + (pre + k + e + "=" + (e + v + e)) == "export NAME=\"A\"";
    RoundTripSpaced(pre, k, e, e, v, e, true);
    UnquoteQuoted('"', inner);
    EntryOfTrimmed("export NAME=\"A\"");
  }

  /** Three lines give three entries, each its own line's. */
  lemma EntriesOfThree(a: string, b: string, c: string)
    ensures EntriesOf([a, b, c]) == [EntryOf(a), EntryOf(b), EntryOf(c)]
  {
    assert EntriesOf([a]) == [EntryOf(a)] by { assert [a][..0] == []; }
    assert EntriesOf([a, b]) == [EntryOf(a), EntryOf(b)] by { assert [a, b][..1] == [a]; }
    assert [a, b, c][..2] == [a, b];
  }

  /** Without overwrite: an entry for a set variable, a skipped line, then an entry for an unset one; only the last is set. */
  lemma ThreeEntries(vars: map<string, string>, e1: Entry, e3: Entry, accepts: (string, string) -> bool)
    requires !Unset(vars, e1.key) && e3.key !in vars && accepts(e3.key, e3.value)
    ensures ApplyEntries(Outcome(vars, 0, None), [Some(e1), None, Some(e3)], false, accepts) == Outcome(vars[e3.key := e3.value], 1, None)
  {
    var o := Outcome(vars, 0, None);
    ApplyEntriesSnoc(o, [], Some(e1), false, accepts);
    ApplyEntriesSnoc(o, [Some(e1)], None, false, accepts);
    ApplyEntriesSnoc(o, [Some(e1), None], Some(e3), false, accepts);
    assert [] + [Some(e1)] == [Some(e1)];
    assert [Some(e1)] + [None] == [Some(e1), None];
    assert [Some(e1), None] + [Some(e3)] == [Some(e1), None, Some(e3)];
  }

  /**
   * `DB_PORT=8080`, `# comment`, `export NAME="A"` without overwrite, with
   * `DB_PORT` already set and `NAME` not: only `NAME` is set, and the count is one.
   */
  lemma ExampleThreeLines(vars: map<string, string>, accepts: (string, string) -> bool)
    requires !Unset(vars, "DB_PORT") && "NAME" !in vars && accepts("NAME", "A")
    ensures ApplyLines(Outcome(vars, 0, None), ["DB_PORT=8080", "# comment", "export NAME=\"A\""], false, accepts)
            == Outcome(vars["NAME" := "A"], 1, None)
  {
    EntriesOfThree("DB_PORT=8080", "# comment", "export NAME=\"A\"");
    ExampleEntryOfSet();
    ExampleEntryOfComment();
    ExampleEntryOfExportShort();
    ThreeEntries(vars, Entry("DB_PORT", "8080"), Entry("NAME", "A"), accepts);
  }
}
