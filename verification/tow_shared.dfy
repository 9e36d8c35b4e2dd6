/** The shared counters of the file-processing simulation
    (Project_Tow/shared_memory.h:14-25). The column averages are not
    modelled. */
module TowShared {
  datatype Counters = Counters(
    filesGenerated: int,
    filesProcessed: int,
    filesMovedToProcessed: int,
    filesMovedToUnprocessed: int,
    filesMovedToBackup: int,
    filesDeleted: int)

  /** The counters of a freshly created segment (shared_memory.c:47-53). */
  function InitCounters(): (s: Counters)
    ensures s.filesGenerated == s.filesProcessed == s.filesMovedToBackup == s.filesDeleted == 0
    ensures s.filesMovedToProcessed == s.filesMovedToUnprocessed == 0
  {
    Counters(0, 0, 0, 0, 0, 0)
  }
}
