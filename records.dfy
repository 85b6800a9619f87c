/** What the process calls report, taken as inputs: the enumeration of
    processes with the information record of each, the frontmost process,
    and the bundle identifier resolved from an application's path. */
module Records {
  import opened Text
  import opened Args

  /** A status other than noErr. */
  type ErrStatus = s: int | s != 0 witness -1

  /** A process serial number, printed as "hi.lo". */
  datatype Psn = Psn(hi: int, lo: int)

  /** `bundleIdentifierForApplication` on the process's path: no URL can be
      built from the path (the call returns false), or the identifier of the
      bundle found there, `None` when there is no bundle or it has no
      identifier. */
  datatype BundleLookup = NoUrl | Resolved(id: Option<string>)

  /** The fields of `CPSProcessInfoRec` the program reads, with the name and
      path buffers filled by the same call. */
  datatype ProcessInfo = ProcessInfo(
    pid: int, fileType: OSType, creator: OSType, name: string, path: string, bundle: BundleLookup)

  /** What `CPSGetProcessInfo` returned for one process. */
  datatype InfoReply = InfoOk(info: ProcessInfo) | InfoFailed(status: ErrStatus)

  /** One process `CPSGetNextProcess` moved to. */
  datatype Slot = Slot(psn: Psn, reply: InfoReply)

  /** The processes in the order `CPSGetNextProcess` visits them, then the
      status with which it stops (procNotFound at the normal end). */
  datatype Enumeration = Enumeration(slots: seq<Slot>, endStatus: ErrStatus)

  /** What `CPSGetFrontProcess` returned. */
  datatype FrontReply = FrontIs(psn: Psn) | FrontFailed(status: ErrStatus)
}
