/**
 * Archiving the bundle: the entry filter that makes platform hooks
 * executable, and the progress messages logged while entries are written.
 */
module Archive {
  import opened Strings
  import Bundle

  // ===== hook modes =====

  const HooksPrefix := ".platform/hooks/"
  const ConfigHooksPrefix := ".platform/confighooks/"

  /** `rwxrwxrwx`: `0o777`. */
  const HookMode := 511

  /** An entry the platform runs as a hook. */
  predicate IsHookEntry(name: string)
  {
    StartsWith(name, HooksPrefix) || StartsWith(name, ConfigHooksPrefix)
  }

  /** Owner, group and others may all execute a file of this mode. */
  predicate Executable(mode: int)
  {
    mode % 2 == 1 && (mode / 8) % 2 == 1 && (mode / 64) % 2 == 1
  }

  /**
   * The mode an entry is archived with: hooks get `0o777`, anything else
   * keeps its own, so filtering an entry twice changes nothing more.
   */
  function ArchivedMode(name: string, mode: int): (m: int)
    ensures IsHookEntry(name) ==> m == HookMode && Executable(m)
    ensures !IsHookEntry(name) ==> m == mode
  {
    if IsHookEntry(name) then HookMode else mode
  }

  /** An archive entry as the `directory` filter sees it. */
  class ArchiveEntry {
    const name: string
    var mode: int

    constructor (name: string, mode: int)
      ensures this.name == name && this.mode == mode
    {
      this.name := name;
      this.mode := mode;
    }

    /** The filter of `archive.directory`: hooks become executable. */
    method Filter()
      modifies this`mode
      ensures mode == ArchivedMode(name, old(mode))
    {
      if StartsWith(name, HooksPrefix) || StartsWith(name, ConfigHooksPrefix) {
        mode := HookMode;
      }
    }
  }

  /** The name of a bundle file inside the archive: its path below `bundle`, joined by `/`. */
  function EntryName(p: Bundle.Path): string
  {
    if p == [] then "" else Join(p[1..], "/")
  }

  /** A file in a prebuild hook folder of the bundle is archived as a hook. */
  lemma {:induction false} HookFolderEntries(p: Bundle.Path)
    requires |p| >= 4 && p[0] == "bundle" && p[1] == ".platform" && (p[2] == "hooks" || p[2] == "confighooks")
    ensures IsHookEntry(EntryName(p))
  {
    var rest := Join(p[3..], "/");
    assert p[1..][1..] == p[2..] && p[2..][1..] == p[3..];
    assert Join(p[1..], "/") == p[1] + "/" + Join(p[2..], "/");
    assert Join(p[2..], "/") == p[2] + "/" + rest;
    assert EntryName(p) == p[1] + "/" + p[2] + "/" + rest;
    if p[2] == "hooks" {
      assert EntryName(p) == HooksPrefix + rest;
    } else {
      assert EntryName(p) == ConfigHooksPrefix + rest;
    }
  }

  /**
   * The scripts the tool injects into the hook folders are archived
   * executable, whatever mode they had on disk; the nginx configuration
   * keeps its own.
   */
  lemma InjectedHooksExecutable(mode: int)
    ensures Executable(ArchivedMode(EntryName(Bundle.NodeHookPath), mode))
    ensures Executable(ArchivedMode(EntryName(Bundle.NodeConfigHookPath), mode))
    ensures Executable(ArchivedMode(EntryName(Bundle.GracefulShutdownPath), mode))
    ensures Executable(ArchivedMode(EntryName(Bundle.EnvPath), mode))
    ensures ArchivedMode(EntryName(Bundle.NginxConfPath), mode) == mode
  {
    HookFolderEntries(Bundle.NodeHookPath);
    HookFolderEntries(Bundle.NodeConfigHookPath);
    HookFolderEntries(Bundle.GracefulShutdownPath);
    HookFolderEntries(Bundle.EnvPath);
    var p := Bundle.NginxConfPath;
    assert p[1..][1..] == p[2..];
    var name := EntryName(p);
    assert name == p[1] + "/" + (p[2] + "/" + Join(p[3..], "/"));
    assert name[10] == 'n';
    assert HooksPrefix[10] == 'h' && ConfigHooksPrefix[10] == 'c';
  }

  // ===== progress =====

  /**
   * `entries.processed / entries.total > nextProgress` for the decile
   * `nextProgress = decile / 10`; with no entries in total the ratio is
   * NaN (never greater) for none processed and Infinity otherwise.
   */
  predicate Exceeds(processed: nat, total: nat, decile: nat)
  {
    if total == 0 then processed > 0 else processed * 10 > decile * total
  }

  /** The progress log of one archive run. */
  class Progress {
    var nextDecile: nat
    var messages: seq<nat>

    /** Every message so far is the next ten per cent, starting at 10. */
    predicate Valid()
      reads this
    {
      nextDecile == |messages| + 1 && forall i :: 0 <= i < |messages| ==> messages[i] == (i + 1) * 10
    }

    constructor ()
      ensures Valid() && messages == []
    {
      nextDecile := 1;
      messages := [];
    }

    /** The `progress` listener: one message, and the next decile, when the ratio passes the current one. */
    method OnProgress(processed: nat, total: nat)
      requires Valid()
      modifies this
      ensures Valid()
      ensures Exceeds(processed, total, old(nextDecile)) ==> messages == old(messages) + [old(nextDecile) * 10]
      ensures !Exceeds(processed, total, old(nextDecile)) ==> messages == old(messages) && nextDecile == old(nextDecile)
    {
      var passed := if total == 0 then processed > 0 else processed * 10 > nextDecile * total;
      if passed {
        messages := messages + [nextDecile * 10];
        nextDecile := nextDecile + 1;
      }
    }
  }

  /** The next decile and the messages after a sequence of `(processed, total)` events. */
  function ProgressRun(events: seq<(nat, nat)>): (r: (nat, seq<nat>))
    ensures r.0 == |r.1| + 1
    ensures forall i :: 0 <= i < |r.1| ==> r.1[i] == (i + 1) * 10
    ensures |r.1| <= |events|
    decreases |events|
  {
    if events == [] then (1, [])
    else
      var before := ProgressRun(events[..|events| - 1]);
      var e := events[|events| - 1];
      if Exceeds(e.0, e.1, before.0) then (before.0 + 1, before.1 + [before.0 * 10]) else before
  }

  /** Feeds the events of one archive run to a fresh progress log and returns its messages. */
  method ReportProgress(events: seq<(nat, nat)>) returns (messages: seq<nat>)
    ensures messages == ProgressRun(events).1
  {
    var progress := new Progress();
    var i := 0;
    while i < |events|
      invariant 0 <= i <= |events|
      invariant progress.Valid()
      invariant (progress.nextDecile, progress.messages) == ProgressRun(events[..i])
    {
      assert events[..i + 1][..i] == events[..i];
      progress.OnProgress(events[i].0, events[i].1);
      i := i + 1;
    }
    assert events[..i] == events;
    messages := progress.messages;
  }

  /**
   * With exact deciles, while no more entries are processed than there are,
   * and there are some, the log never reaches 100%: it stops at 90%.
   */
  lemma {:induction false} ProgressBelowHundred(events: seq<(nat, nat)>)
    requires forall i :: 0 <= i < |events| ==> 0 < events[i].1 && events[i].0 <= events[i].1
    ensures ProgressRun(events).0 <= 10
    ensures forall i :: 0 <= i < |ProgressRun(events).1| ==> ProgressRun(events).1[i] <= 90
    decreases |events|
  {
    if events != [] {
      var init := events[..|events| - 1];
      ProgressBelowHundred(init);
      var e := events[|events| - 1];
      var k := ProgressRun(init).0;
      if Exceeds(e.0, e.1, k) {
        assert k * e.1 < 10 * e.1;
      }
    }
  }

  /** An event that passes several deciles at once still logs only one message. */
  lemma OneMessagePerEvent(events: seq<(nat, nat)>, e: (nat, nat))
    ensures |ProgressRun(events + [e]).1| <= |ProgressRun(events).1| + 1
  {
    assert (events + [e])[..|events|] == events;
  }
}
