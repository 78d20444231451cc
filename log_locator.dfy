/**
 * Choosing the log file to tail: among the entries of the logs directory whose
 * names start with "content_log" and end with ".txt", the one with the latest
 * modification time.  The directory listing is an input: a sequence of names
 * with their modification times, in the order the listing returns them.
 */
module LogLocator {
  import opened Wrappers

  /** One directory entry with the modification time of the file it names. */
  datatype Entry = Entry(name: string, mtime: int)

  const Prefix := "content_log"
  const Suffix := ".txt"

  /** `file.startswith("content_log") and file.endswith(".txt")` */
  predicate IsLogName(name: string) {
    |Prefix| <= |name| && name[..|Prefix|] == Prefix
    && |Suffix| <= |name| && name[|name| - |Suffix|..] == Suffix
  }

  /** `not self.steam_path`: no installation path, or an empty one. */
  predicate NoSteamPath(steamPath: Option<string>) {
    steamPath.None? || steamPath.value == ""
  }

  /** The cases in which `find_log_file` returns None: no installation path,
      no logs directory (`logsDir` is None), or no log file in it. */
  predicate NoLogFile(steamPath: Option<string>, logsDir: Option<seq<Entry>>) {
    NoSteamPath(steamPath) || logsDir.None?
    || forall k :: 0 <= k < |logsDir.value| ==> !IsLogName(logsDir.value[k].name)
  }

  /** Entry `k` is the one `max(log_files, key=os.path.getmtime)` returns: a log
      file whose modification time no other log file exceeds, and the first such
      in listing order (`max` keeps the earliest of equal keys). */
  ghost predicate IsLatestLog(listing: seq<Entry>, k: int) {
    0 <= k < |listing| && IsLogName(listing[k].name)
    && (forall m :: 0 <= m < |listing| && IsLogName(listing[m].name) ==> listing[m].mtime <= listing[k].mtime)
    && (forall m :: 0 <= m < k && IsLogName(listing[m].name) ==> listing[m].mtime < listing[k].mtime)
  }

  /** The choice is deterministic: ties go to the earliest entry. */
  lemma LatestLogIsUnique(listing: seq<Entry>, k: int, k': int)
    requires IsLatestLog(listing, k) && IsLatestLog(listing, k')
    ensures k == k'
  {
  }

  /** The entries whose names are log names, in listing order; `origin` maps
      each one back to its position in the listing. */
  method CollectLogFiles(listing: seq<Entry>) returns (logFiles: seq<Entry>, ghost origin: seq<int>)
    ensures |origin| == |logFiles|
    ensures forall j :: 0 <= j < |logFiles| ==> 0 <= origin[j] < |listing| && logFiles[j] == listing[origin[j]]
    ensures forall j, j' :: 0 <= j < j' < |logFiles| ==> origin[j] < origin[j']
    ensures forall m :: 0 <= m < |listing| && IsLogName(listing[m].name) ==> m in origin
    ensures forall j :: 0 <= j < |logFiles| ==> IsLogName(logFiles[j].name)
  {
    logFiles, origin := [], [];
    for i := 0 to |listing|
      invariant |origin| == |logFiles|
      invariant forall j :: 0 <= j < |logFiles| ==> 0 <= origin[j] < i && logFiles[j] == listing[origin[j]]
      invariant forall j, j' :: 0 <= j < j' < |logFiles| ==> origin[j] < origin[j']
      invariant forall m :: 0 <= m < i && IsLogName(listing[m].name) ==> m in origin
      invariant forall j :: 0 <= j < |logFiles| ==> IsLogName(logFiles[j].name)
    {
      if IsLogName(listing[i].name) {
        logFiles := logFiles + [listing[i]];
        origin := origin + [i];
      }
    }
  }

  /** `max(log_files, key=...)`: the position of the first entry whose
      modification time no other entry exceeds. */
  method LatestIndex(logFiles: seq<Entry>) returns (best: nat)
    requires logFiles != []
    ensures best < |logFiles|
    ensures forall m :: 0 <= m < |logFiles| ==> logFiles[m].mtime <= logFiles[best].mtime
    ensures forall m :: 0 <= m < best ==> logFiles[m].mtime < logFiles[best].mtime
  {
    best := 0;
    for j := 1 to |logFiles|
      invariant best < j
      invariant forall m :: 0 <= m < j ==> logFiles[m].mtime <= logFiles[best].mtime
      invariant forall m :: 0 <= m < best ==> logFiles[m].mtime < logFiles[best].mtime
    {
      if logFiles[j].mtime > logFiles[best].mtime {
        best := j;
      }
    }
  }
}
