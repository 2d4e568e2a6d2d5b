/** The memory of one completion slot, and what recycling and destroying a slot do to it. */
module SlotMemory {
  import opened Options
  import opened Registry

  type Outcome = nat

  /** The state word: COMPLETED, HAS_WAITER and OUTCOME_VALID. */
  datatype Word = Word(completed: bool, hasWaiter: bool, valid: bool)

  /**
   `cell` is the uninitialised outcome cell (`None` while nothing was written, or after the value
   was moved out or dropped); `boxed` says whether the registry box exists.
  */
  datatype SlotMem = SlotMem(word: Word, cell: Option<Outcome>, boxed: bool, registry: seq<Waiter>)

  const PENDING := Word(false, false, false)

  function FreshMem(): SlotMem {
    SlotMem(PENDING, None, false, [])
  }

  /** `Slot::reset`: each clearing is guarded by the bit or pointer the code tests. */
  function ResetMem(m: SlotMem): SlotMem {
    SlotMem(PENDING,
            if m.word.valid then None else m.cell,
            m.boxed,
            if m.word.hasWaiter && m.boxed then [] else m.registry)
  }

  /** The outcome a `reset` or a final drop destroys: the cell, if OUTCOME_VALID says it is live. */
  function Destroyed(m: SlotMem): multiset<Outcome> {
    if m.word.valid then Live(m.cell) else multiset{}
  }

  function Live(cell: Option<Outcome>): multiset<Outcome> {
    if cell.Some? then multiset{cell.value} else multiset{}
  }

  /** The memory after the slot's final drop: the box is reclaimed, a valid cell is destroyed. */
  function DropMem(m: SlotMem): SlotMem {
    SlotMem(m.word, if m.word.valid then None else m.cell, false, [])
  }

  /** The memory of a slot whose value `into_outcome` moved out: the cell is no longer live. */
  function MoveOut(mem: SlotMem): SlotMem {
    if mem.word.completed then mem.(cell := None, word := mem.word.(valid := false)) else mem
  }

  /** What `complete` run alone leaves: the value, both bits, and no waiter of those it was obliged to look for. */
  function CompletedMem(m: SlotMem, v: Outcome): SlotMem {
    SlotMem(m.word.(completed := true, valid := true), Some(v), m.boxed || m.word.hasWaiter,
            if m.word.hasWaiter then [] else m.registry)
  }

  /** What `register_waker` run alone leaves of a pending slot. */
  function RegisteredMem(m: SlotMem, w: WakerId): SlotMem {
    SlotMem(m.word.(hasWaiter := true), m.cell, true, RegisterDirect(m.registry, w))
  }
}
