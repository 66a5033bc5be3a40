/**
 The diagnostics sidecar of a genesis export: an atomically published report that must only
 ever describe the most recent export, on a file system where any operation may fail.
 */
module ExportDiagnostics {
  import opened Options
  import opened Wire

  datatype Diagnostic = Diagnostic(mod: string, kind: string, key: string, detail: string)

  /** The document written to export-issues.json. Its status field is the constant "degraded". */
  datatype Report = Report(exportId: nat, height: int, total: nat, issues: seq<Diagnostic>)

  /** A file: its bytes, and whether they are on stable storage. */
  datatype File = File(content: bytes, durable: bool)

  /** Which operations of one export fail; a failing write leaves the first `written` bytes. */
  datatype Faults = Faults(
    marshal: bool, create: bool, write: bool, written: nat, sync: bool, close: bool, rename: bool,
    removeTemp: bool, removeReport: bool)

  datatype Status = Status(
    exportId: nat, height: int, issues: nat, degraded: bool,
    reportWritten: bool, writeErr: bool, staleCleanupErr: bool)
  {
    predicate LostDiagnostics() { degraded && !reportWritten }
    function CLIExitCode(): int { if LostDiagnostics() then DEGRADED_EXIT_CODE else 0 }
  }

  const DEGRADED_EXIT_CODE := 3

  datatype RemoveError = NoError | NotExist | OtherError

  /** JSON rendering of a report and the id read back from a file, with the law that ties them. */
  datatype Codec = Codec(render: Report -> bytes, readId: bytes -> Option<nat>)
  {
    ghost predicate Lawful() { forall r :: readId(render(r)) == Some(r.exportId) }
  }

  datatype Export = Export(height: int, diags: seq<Diagnostic>, faults: Faults)

  /** The node home as the export sees it, and the verdict slot. */
  datatype State = State(report: Option<File>, temps: map<nat, File>, nextTemp: nat, lastId: nat, last: Status)

  // ------------------------------------------------- specification of one export

  /** Publishing `data`: it either replaces the report as a whole or leaves it alone. */
  function Publish(s: State, data: bytes, f: Faults): (State, bool)
  {
    if f.create then (s, false)
    else
      var tmp := s.nextTemp;
      var s1 := s.(nextTemp := tmp + 1);
      if f.write || f.sync || f.close || f.rename then
        (if f.removeTemp then s1.(temps := s1.temps[tmp := Leftover(data, f)]) else s1.(temps := s1.temps - {tmp}),
         false)
      else (s1.(report := Some(File(data, true)), temps := s1.temps - {tmp}), true)
  }

  /** What stays in the temporary file when even its removal fails. */
  function Leftover(data: bytes, f: Faults): File
  {
    if f.write then File(data[..Min(f.written, |data|)], false) else File(data, !f.sync)
  }

  function Min(a: nat, b: nat): nat { if a <= b then a else b }

  function AfterExport(c: Codec, home: bool, s: State, x: Export): State
  {
    var id := s.lastId + 1;
    var st := Status(id, x.height, |x.diags|, |x.diags| > 0, false, false, false);
    var s0 := s.(lastId := id);
    var removed := if !home || x.faults.removeReport then s0 else s0.(report := None);
    var removeFails := home && x.faults.removeReport;
    if !st.degraded then removed.(last := st.(staleCleanupErr := removeFails))
    else
      var (s1, ok) :=
        if !home || x.faults.marshal then (s0, false)
        else Publish(s0, c.render(Report(id, x.height, |x.diags|, x.diags)), x.faults);
      if ok then s1.(last := st.(reportWritten := true))
      else
        var s2 := if removeFails || !home then s1 else s1.(report := None);
        s2.(last := st.(writeErr := true, staleCleanupErr := removeFails))
  }

  // ------------------------------------------------- the implementation

  class Exporter {
    const codec: Codec
    const home: bool
    var report: Option<File>
    var temps: map<nat, File>
    var nextTemp: nat
    var lastId: nat
    var last: Status
    /** What the report path held after every file-system step so far. */
    ghost var history: seq<Option<File>>

    function Now(): State
      reads this
    {
      State(report, temps, nextTemp, lastId, last)
    }

    constructor (codec: Codec, home: bool, report: Option<File>, lastId: nat)
      ensures this.codec == codec && this.home == home && this.report == report && this.lastId == lastId
      ensures temps == map[] && history == [report]
    {
      this.codec, this.home, this.report, this.lastId := codec, home, report, lastId;
      temps, nextTemp, last, history := map[], 0, Status(0, 0, 0, false, false, false, false), [report];
    }

    /** From the recorded history `from` on, the report path held `a` or `b` at every step. */
    ghost predicate OnlyEver(from: nat, a: Option<File>, b: Option<File>)
      reads this
    {
      from <= |history| && forall i | from <= i < |history| :: history[i] == a || history[i] == b
    }

    /** writeFileAtomic: temporary sibling, write, sync, close, rename; the temporary is removed on failure. */
    method WriteFileAtomic(data: bytes, f: Faults) returns (ok: bool)
      modifies this
      ensures (Now(), ok) == Publish(old(Now()), data, f)
      ensures ok ==> report == Some(File(data, true))
      ensures old(history) <= history && OnlyEver(|old(history)|, old(report), Some(File(data, true)))
    {
      if f.create { return false; }
      var tmp := nextTemp;
      nextTemp := nextTemp + 1;
      temps := temps[tmp := File([], false)];
      history := history + [report];
      ok := WriteSyncRename(tmp, data, f);
      if !ok && !f.removeTemp {
        temps := temps - {tmp};
        history := history + [report];
      }
      assert old(temps)[tmp := File([], false)][tmp := Leftover(data, f)] == old(temps)[tmp := Leftover(data, f)];
      assert old(temps)[tmp := File([], false)] - {tmp} == old(temps) - {tmp};
      assert old(temps)[tmp := Leftover(data, f)] - {tmp} == old(temps) - {tmp};
    }

    method WriteSyncRename(tmp: nat, data: bytes, f: Faults) returns (ok: bool)
      requires tmp in temps
      modifies this`temps, this`report, this`history
      ensures ok <==> !(f.write || f.sync || f.close || f.rename)
      ensures ok ==> report == Some(File(data, true)) && temps == old(temps) - {tmp}
      ensures !ok ==> report == old(report) && temps == old(temps)[tmp := Leftover(data, f)]
      ensures old(history) <= history && OnlyEver(|old(history)|, old(report), Some(File(data, true)))
    {
      if f.write {
        temps := temps[tmp := File(data[..Min(f.written, |data|)], false)];
        history := history + [report];
        return false;
      }
      temps := temps[tmp := File(data, false)];
      history := history + [report];
      if f.sync { return false; }
      temps := temps[tmp := File(data, true)];
      history := history + [report];
      if f.close { return false; }
      if f.rename { return false; }
      report := Some(temps[tmp]);
      temps := temps - {tmp};
      history := history + [report];
      return true;
    }

    /** os.Remove on the report path. */
    method Remove(f: Faults) returns (e: RemoveError)
      modifies this`report, this`history
      ensures e == if f.removeReport then OtherError else if old(report).None? then NotExist else NoError
      ensures report == if e.OtherError? then old(report) else None
      ensures old(history) <= history && OnlyEver(|old(history)|, old(report), None)
    {
      if f.removeReport { return OtherError; }
      if report.None? { return NotExist; }
      report := None;
      history := history + [report];
      return NoError;
    }

    /** removeStaleExportDiagnosticsReport; an absent report is not a failure. */
    method RemoveStale(f: Faults) returns (failed: bool)
      modifies this`report, this`history
      ensures failed <==> home && f.removeReport
      ensures !failed && home ==> report == None
      ensures failed || !home ==> report == old(report)
      ensures old(report).None? ==> report.None?
      ensures old(history) <= history && OnlyEver(|old(history)|, old(report), None)
    {
      if !home { return false; }
      var e := Remove(f);
      return e.OtherError?;
    }

    /**
     finalizeExportDiagnostics. At every step the report path holds the complete old report,
     the complete and durable new one, or nothing.
     */
    method Finalize(x: Export)
      modifies this
      ensures Now() == AfterExport(codec, home, old(Now()), x)
      ensures old(history) <= history
      ensures forall i | |old(history)| <= i < |history| ::
                || history[i] == old(report)
                || history[i] == None
                || history[i] == Some(File(codec.render(Report(lastId, x.height, |x.diags|, x.diags)), true))
    {
      lastId := lastId + 1;
      var st := Status(lastId, x.height, |x.diags|, |x.diags| > 0, false, false, false);
      if !st.degraded {
        var failed := RemoveStale(x.faults);
        last := st.(staleCleanupErr := failed);
        return;
      }
      var written := false;
      if home && !x.faults.marshal {
        var data := codec.render(Report(lastId, x.height, |x.diags|, x.diags));
        written := WriteFileAtomic(data, x.faults);
      }
      if written {
        last := st.(reportWritten := true);
        return;
      }
      var failed := RemoveStale(x.faults);
      last := st.(writeErr := true, staleCleanupErr := failed);
    }
  }

  // ------------------------------------------------- whole runs

  /** The report path of a node without a home does not exist. */
  function Sidecar(home: bool, s: State): Option<File>
  {
    if home then s.report else None
  }

  ghost predicate CarriesId(c: Codec, file: Option<File>, id: nat)
  {
    file.Some? && c.readId(file.value.content) == Some(id)
  }

  /** No file on disk names an export that has not happened yet. */
  ghost predicate Past(c: Codec, s: State)
  {
    s.report.Some? && c.readId(s.report.value.content).Some? ==>
      c.readId(s.report.value.content).value <= s.lastId
  }

  function Run(c: Codec, home: bool, s: State, xs: seq<Export>): State
  {
    if xs == [] then s
    else AfterExport(c, home, Run(c, home, s, xs[..|xs| - 1]), xs[|xs| - 1])
  }

  lemma {:induction false} RunPast(c: Codec, home: bool, s: State, xs: seq<Export>)
    requires c.Lawful() && Past(c, s)
    ensures Past(c, Run(c, home, s, xs)) && Run(c, home, s, xs).lastId == s.lastId + |xs|
  {
    if xs != [] {
      RunPast(c, home, s, xs[..|xs| - 1]);
    }
  }

  /**
   After any run of exports with any failures: unless the last status reports a failed
   clean-up, the sidecar exists exactly when the last export's report was written, and it is
   that export's report, complete and durable.
   */
  lemma SidecarDescribesLastExport(c: Codec, home: bool, s: State, xs: seq<Export>)
    requires xs != []
    ensures var end := Run(c, home, s, xs);
            var x := xs[|xs| - 1];
            !end.last.staleCleanupErr ==>
              && (Sidecar(home, end).Some? <==> end.last.reportWritten)
              && (end.last.reportWritten ==>
                    Sidecar(home, end)
                    == Some(File(c.render(Report(end.last.exportId, x.height, |x.diags|, x.diags)), true)))
  {
  }

  /**
   After any run: exit code 3 is returned exactly when the last export lost records and no
   file names it, so an earlier report that could not be removed never passes for it.
   */
  lemma ExitCodeExact(c: Codec, home: bool, s: State, xs: seq<Export>)
    requires c.Lawful() && Past(c, s) && xs != []
    ensures var end := Run(c, home, s, xs);
            end.last.CLIExitCode() == 3
            <==> |xs[|xs| - 1].diags| > 0 && !CarriesId(c, Sidecar(home, end), end.last.exportId)
  {
    RunPast(c, home, s, xs[..|xs| - 1]);
    var before, x := Run(c, home, s, xs[..|xs| - 1]), xs[|xs| - 1];
    assert c.readId(c.render(Report(before.lastId + 1, x.height, |x.diags|, x.diags))) == Some(before.lastId + 1);
  }

  /** Publishing succeeds exactly when no step fails; then the report is the new file and no temporary is left. */
  lemma PublishExact(s: State, data: bytes, f: Faults)
    requires s.nextTemp !in s.temps
    ensures var (s', ok) := Publish(s, data, f);
            && (ok <==> !f.create && !f.write && !f.sync && !f.close && !f.rename)
            && (ok ==> s'.report == Some(File(data, true)) && s'.temps == s.temps)
            && s'.nextTemp == (if f.create then s.nextTemp else s.nextTemp + 1) && s'.lastId == s.lastId && s'.last == s.last
            && (!ok && !f.create && f.removeTemp ==>
                  && s'.temps.Keys == s.temps.Keys + {s.nextTemp}
                  && s'.temps[s.nextTemp].content <= data
                  && (|s'.temps[s.nextTemp].content| == if f.write && f.written < |data| then f.written else |data|)
                  && (s'.temps[s.nextTemp].durable <==> !f.write && !f.sync))
  {
    var s' := Publish(s, data, f).0;
    assert s.temps - {s.nextTemp} == s.temps;
    if !f.create && f.removeTemp && (f.write || f.sync || f.close || f.rename) {
      assert s'.temps.Keys == s.temps.Keys + {s.nextTemp};
    }
  }

  /** The verdict of one export and the file it leaves, for every combination of faults. */
  lemma ExportExact(c: Codec, home: bool, s: State, x: Export)
    requires s.nextTemp !in s.temps
    ensures var s', f := AfterExport(c, home, s, x), x.faults;
            var st := s'.last;
            && st.exportId == s.lastId + 1 == s'.lastId && st.height == x.height && st.issues == |x.diags|
            && (st.degraded <==> x.diags != [])
            && (st.reportWritten
                <==> st.degraded && home && !f.marshal && !f.create && !f.write && !f.sync && !f.close && !f.rename)
            && (st.writeErr <==> st.degraded && !st.reportWritten)
            && (st.staleCleanupErr <==> !st.reportWritten && home && f.removeReport)
            && (st.reportWritten ==> s'.report == Some(File(c.render(Report(st.exportId, x.height, |x.diags|, x.diags)), true)))
            && (!st.reportWritten ==> s'.report == if home && !f.removeReport then None else s.report)
            && (!(st.degraded && home && !f.marshal) ==> s'.temps == s.temps && s'.nextTemp == s.nextTemp)
  {
    var s0 := s.(lastId := s.lastId + 1);
    PublishExact(s0, c.render(Report(s.lastId + 1, x.height, |x.diags|, x.diags)), x.faults);
    FailedKeepsReport(s0, c.render(Report(s.lastId + 1, x.height, |x.diags|, x.diags)), x.faults);
  }

  lemma FailedKeepsReport(s: State, data: bytes, f: Faults)
    ensures !Publish(s, data, f).1 ==> Publish(s, data, f).0.report == s.report
  {
  }

  /** An unsuccessful write leaves the directory as it found it exactly when the temporary file could be removed, or was never made. */
  lemma FailedWriteLeavesNoTrace(s: State, data: bytes, f: Faults)
    requires s.nextTemp !in s.temps && !Publish(s, data, f).1
    ensures var s' := Publish(s, data, f).0;
            s'.report == s.report && (s'.temps == s.temps <==> f.create || !f.removeTemp)
  {
    var s' := Publish(s, data, f).0;
    if !f.create && f.removeTemp { assert s.nextTemp in s'.temps; }
  }
}
