/** What ScanEtcIssue (pkg/monobrew/scanner.go) makes of /etc/issue: a fixed
    list of substring checks, in source order, each of which writes four
    status variables when its marker occurs in the text. The file itself is
    outside the model; the caller passes what reading it gave. */
module Scanning {
  import opened Maybe
  import opened Text

  /** What the file system holds at /etc/issue: no such file, a file that
      could not be read, or its text. */
  datatype IssueFile = Missing | Unreadable | Readable(text: string)

  /** One check: the marker looked for, and the four keys it sets — the
      package manager key, the distribution key, the release key and the
      version key — with the value the version key gets. */
  datatype Check = Check(marker: string, distroKey: string, releaseKey: string,
                         versionKey: string, version: string)

  /** The package manager key every check sets. */
  const AptKey := "pkgs.apt"

  /** The checks, in the order the source makes them, with the keys and
      versions it writes (including the Debian 13 release key "os.debian.12"
      and the versions "2104", "2110" and "22.14"). */
  const Checks: seq<Check> := [
    Check("Debian GNU/Linux 13", "os.debian", "os.debian.12", "os.debian.version", "13"),
    Check("Debian GNU/Linux 12", "os.debian", "os.debian.12", "os.debian.version", "12"),
    Check("Debian GNU/Linux 11", "os.debian", "os.debian.11", "os.debian.version", "11"),
    Check("Ubuntu 20.04", "os.ubuntu", "os.ubuntu.2004", "os.ubuntu.version", "20.04"),
    Check("Ubuntu 20.10", "os.ubuntu", "os.ubuntu.2010", "os.ubuntu.version", "20.10"),
    Check("Ubuntu 21.04", "os.ubuntu", "os.ubuntu.2104", "os.ubuntu.version", "2104"),
    Check("Ubuntu 21.10", "os.ubuntu", "os.ubuntu.2110", "os.ubuntu.version", "2110"),
    Check("Ubuntu 22.04", "os.ubuntu", "os.ubuntu.2204", "os.ubuntu.version", "22.04"),
    Check("Ubuntu 22.10", "os.ubuntu", "os.ubuntu.2210", "os.ubuntu.version", "22.14")
  ]

  /** One check applied to the status map: the four writes, in order, when
      the marker occurs, nothing otherwise. */
  function ApplyCheck(status: map<string, string>, text: string, c: Check): map<string, string>
  {
    if Contains(text, c.marker) then
      status[AptKey := "1"][c.distroKey := "1"][c.releaseKey := "1"][c.versionKey := c.version]
    else status
  }

  /** The checks applied one after the other. */
  function ApplyChecks(status: map<string, string>, text: string, cs: seq<Check>): map<string, string>
  {
    if cs == [] then status
    else ApplyCheck(ApplyChecks(status, text, cs[..|cs| - 1]), text, cs[|cs| - 1])
  }

  /** The text the checks see: none when the file does not exist, the empty
      text when it cannot be read (the read error is ignored). */
  function IssueText(issue: IssueFile): (t: Option<string>)
    ensures t.None? <==> issue.Missing?
    ensures issue.Unreadable? ==> t == Some("")
    ensures issue.Readable? ==> t == Some(issue.text)
  {
    match issue
    case Missing => None
    case Unreadable => Some("")
    case Readable(text) => Some(text)
  }

  /** The status map after ScanEtcIssue. */
  function ScannedStatus(status: map<string, string>, issue: IssueFile): map<string, string>
  {
    match IssueText(issue)
    case None => status
    case Some(text) => ApplyChecks(status, text, Checks)
  }

  /** The checks up to k + 1 are those up to k followed by check k. */
  lemma ApplyChecksPrefix(status: map<string, string>, text: string, cs: seq<Check>, k: nat)
    requires k < |cs|
    ensures ApplyChecks(status, text, cs[..k + 1]) == ApplyCheck(ApplyChecks(status, text, cs[..k]), text, cs[k])
  {
    assert cs[..k + 1][..k] == cs[..k];
  }

  // ---- reference: the last write of each key ----

  /** The value a matching check writes to key k, if it writes k at all; the
      version write comes last, so it decides when keys coincide. */
  function CheckWrite(c: Check, k: string): (v: Option<string>)
    ensures v.Some? <==> k == AptKey || k == c.distroKey || k == c.releaseKey || k == c.versionKey
    ensures v.Some? && k == c.versionKey ==> v.value == c.version
    ensures v.Some? && k != c.versionKey ==> v.value == "1"
  {
    if k == c.versionKey then Some(c.version)
    else if k == AptKey || k == c.distroKey || k == c.releaseKey then Some("1")
    else None
  }

  /** The value of k written by the last check of cs whose marker occurs in
      text and which writes k, if any. */
  function LastWrite(text: string, cs: seq<Check>, k: string): Option<string>
  {
    if cs == [] then None
    else if Contains(text, cs[|cs| - 1].marker) && CheckWrite(cs[|cs| - 1], k).Some? then
      CheckWrite(cs[|cs| - 1], k)
    else LastWrite(text, cs[..|cs| - 1], k)
  }

  // ---- lemmas ----

  /** Last write wins: a key some matching check writes holds the value of
      the last such write; every other key is exactly as it was (present or
      absent, with the same value). No key is ever removed. */
  lemma {:induction false} LastWriteWins(status: map<string, string>, text: string, cs: seq<Check>, k: string)
    ensures LastWrite(text, cs, k).Some? ==>
      k in ApplyChecks(status, text, cs) && ApplyChecks(status, text, cs)[k] == LastWrite(text, cs, k).value
    ensures LastWrite(text, cs, k).None? ==>
      (k in ApplyChecks(status, text, cs) <==> k in status)
    ensures LastWrite(text, cs, k).None? && k in status ==> ApplyChecks(status, text, cs)[k] == status[k]
    decreases |cs|
  {
    if cs != [] {
      LastWriteWins(status, text, cs[..|cs| - 1], k);
    }
  }

  /** Keys are only added or overwritten, never removed. */
  lemma KeysOnlyGrow(status: map<string, string>, issue: IssueFile)
    ensures status.Keys <= ScannedStatus(status, issue).Keys
  {
    if issue.Missing? {
      return;
    }
    var text := IssueText(issue).value;
    forall k | k in status
      ensures k in ApplyChecks(status, text, Checks)
    {
      LastWriteWins(status, text, Checks, k);
    }
  }

  /** A text in which no marker occurs leaves the status map as it was. */
  lemma {:induction false} NoMarkerUnchanged(status: map<string, string>, text: string, cs: seq<Check>)
    requires forall i :: 0 <= i < |cs| ==> !Contains(text, cs[i].marker)
    ensures ApplyChecks(status, text, cs) == status
    decreases |cs|
  {
    if cs != [] {
      NoMarkerUnchanged(status, text, cs[..|cs| - 1]);
    }
  }

  /** The empty text contains no nonempty marker. */
  lemma EmptyContainsNothing(m: string)
    requires m != ""
    ensures !Contains("", m)
  {
  }

  /** A missing file, and a file that cannot be read, leave the status map
      as it was. */
  lemma NothingToScan(status: map<string, string>)
    ensures ScannedStatus(status, Missing) == status
    ensures ScannedStatus(status, Unreadable) == status
  {
    forall i | 0 <= i < |Checks|
      ensures !Contains("", Checks[i].marker)
    {
      EmptyContainsNothing(Checks[i].marker);
    }
    NoMarkerUnchanged(status, "", Checks);
  }

  /** The run is decided by the last match: a check that matches, with no
      later matching check writing key k, leaves k as it wrote it. */
  lemma {:induction false} LastMatchDecides(text: string, cs: seq<Check>, i: nat, k: string)
    requires i < |cs| && Contains(text, cs[i].marker) && CheckWrite(cs[i], k).Some?
    requires forall j :: i < j < |cs| ==> !Contains(text, cs[j].marker) || CheckWrite(cs[j], k).None?
    ensures LastWrite(text, cs, k) == CheckWrite(cs[i], k)
    decreases |cs|
  {
    if i < |cs| - 1 {
      LastMatchDecides(text, cs[..|cs| - 1], i, k);
    }
  }

  /** A key no check writes is never written. */
  lemma {:induction false} NeverWritten(text: string, cs: seq<Check>, k: string)
    requires forall j :: 0 <= j < |cs| ==> CheckWrite(cs[j], k).None?
    ensures LastWrite(text, cs, k).None?
    decreases |cs|
  {
    if cs != [] {
      NeverWritten(text, cs[..|cs| - 1], k);
    }
  }

  /** "Debian GNU/Linux 13", without a later Debian marker, sets the release
      key "os.debian.12" and the version "13". */
  lemma Debian13Quirk(status: map<string, string>, text: string)
    requires Contains(text, "Debian GNU/Linux 13")
    requires !Contains(text, "Debian GNU/Linux 12") && !Contains(text, "Debian GNU/Linux 11")
    ensures "os.debian.12" in ScannedStatus(status, Readable(text))
    ensures ScannedStatus(status, Readable(text))["os.debian.12"] == "1"
    ensures "os.debian.version" in ScannedStatus(status, Readable(text))
    ensures ScannedStatus(status, Readable(text))["os.debian.version"] == "13"
  {
    LastMatchDecides(text, Checks, 0, "os.debian.12");
    LastMatchDecides(text, Checks, 0, "os.debian.version");
    LastWriteWins(status, text, Checks, "os.debian.12");
    LastWriteWins(status, text, Checks, "os.debian.version");
  }

  /** No check writes an "os.debian.13" key, whatever the text. */
  lemma NoDebian13Key(status: map<string, string>, issue: IssueFile)
    ensures "os.debian.13" in ScannedStatus(status, issue) <==> "os.debian.13" in status
    ensures "os.debian.13" in status ==> ScannedStatus(status, issue)["os.debian.13"] == status["os.debian.13"]
  {
    if !issue.Missing? {
      var text := IssueText(issue).value;
      NeverWritten(text, Checks, "os.debian.13");
      LastWriteWins(status, text, Checks, "os.debian.13");
    }
  }

  /** The Debian 11 check comes last of the Debian checks, so its version
      stays whatever other Debian marker the text holds. */
  lemma Debian11Wins(status: map<string, string>, text: string)
    requires Contains(text, "Debian GNU/Linux 11")
    ensures "os.debian.version" in ScannedStatus(status, Readable(text))
    ensures ScannedStatus(status, Readable(text))["os.debian.version"] == "11"
  {
    LastMatchDecides(text, Checks, 2, "os.debian.version");
    LastWriteWins(status, text, Checks, "os.debian.version");
  }

  /** The Ubuntu 22.10 check, the last of all, records the version "22.14". */
  lemma Ubuntu2210Quirk(status: map<string, string>, text: string)
    requires Contains(text, "Ubuntu 22.10")
    ensures "os.ubuntu.version" in ScannedStatus(status, Readable(text))
    ensures ScannedStatus(status, Readable(text))["os.ubuntu.version"] == "22.14"
    ensures ScannedStatus(status, Readable(text))["os.ubuntu.2210"] == "1"
  {
    LastMatchDecides(text, Checks, 8, "os.ubuntu.version");
    LastMatchDecides(text, Checks, 8, "os.ubuntu.2210");
    LastWriteWins(status, text, Checks, "os.ubuntu.version");
    LastWriteWins(status, text, Checks, "os.ubuntu.2210");
  }

  /** Ubuntu 21.04 and 21.10, without a later Ubuntu marker, record the
      versions "2104" and "2110", without a dot. */
  lemma Ubuntu21Quirks(status: map<string, string>, text: string)
    requires !Contains(text, "Ubuntu 22.04") && !Contains(text, "Ubuntu 22.10")
    ensures Contains(text, "Ubuntu 21.10") ==>
      "os.ubuntu.version" in ScannedStatus(status, Readable(text))
      && ScannedStatus(status, Readable(text))["os.ubuntu.version"] == "2110"
    ensures Contains(text, "Ubuntu 21.04") && !Contains(text, "Ubuntu 21.10") ==>
      "os.ubuntu.version" in ScannedStatus(status, Readable(text))
      && ScannedStatus(status, Readable(text))["os.ubuntu.version"] == "2104"
  {
    if Contains(text, "Ubuntu 21.10") {
      LastMatchDecides(text, Checks, 6, "os.ubuntu.version");
    } else if Contains(text, "Ubuntu 21.04") {
      LastMatchDecides(text, Checks, 5, "os.ubuntu.version");
    }
    LastWriteWins(status, text, Checks, "os.ubuntu.version");
  }
}
