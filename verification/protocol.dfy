/** The MI coherence protocol of coherence/protocol.c and the values the components exchange. */
module Protocol {

  datatype Option<+T> = None | Some(value: T)

  /** Bus transactions (BUSRD, BUSWR, DATA, SHARED). */
  datatype BusType = BusRd | BusWr | Data | Shared

  datatype CohState = Modified | Invalid | InvalidModified

  /** What coherence tells the cache. */
  datatype Action = NoAction | DataRecv | Invalidate | FlushComplete

  type Addr = int

  /** cacheMI: the next state, whether permission is granted now, whether a bus write is sent. */
  function CacheMI(state: CohState): (CohState, bool, bool) {
    match state
    case Invalid => (InvalidModified, false, true)
    case Modified => (Modified, true, false)
    case InvalidModified => (InvalidModified, false, false)
  }

  /** snoopMI: the next state, the action, whether this cache sends the data on the bus. */
  function SnoopMI(reqType: BusType, state: CohState): (CohState, Action, bool) {
    match state
    case Invalid => (Invalid, if reqType == Data then FlushComplete else NoAction, false)
    case Modified => (Invalid, Invalidate, true)
    case InvalidModified =>
      if reqType == Data || reqType == Shared then (Modified, DataRecv, false)
      else (InvalidModified, NoAction, false)
  }

  /** One processor's states; INVALID is implicit. */
  type Directory = map<Addr, CohState>

  function GetState(d: Directory, a: Addr): CohState {
    if a in d then d[a] else Invalid
  }

  /** INVALID is removed from the tree, anything else is stored. */
  function SetState(d: Directory, a: Addr, next: CohState): Directory {
    if next == Invalid then d - {a} else d[a := next]
  }

  /** After a snoop; a block that was and stays in INVALID is not looked for in the tree. */
  function Snooped(d: Directory, a: Addr, next: CohState): Directory {
    if next == Invalid && GetState(d, a) == Invalid then d else SetState(d, a, next)
  }

  /** The trees hold exactly the addresses that are not in INVALID. */
  ghost predicate NoStoredInvalid(d: Directory) {
    forall a :: a in d ==> d[a] != Invalid
  }
}
