/** A reader-writer lock, as a value. */
module RwMutex {
  import opened Core

  datatype RwMutex = RwMutex(writer: Option<nat>, readers: set<nat>)

  const Free: RwMutex := RwMutex(None, {})

  datatype Move = Stay | TakeWrite | DropWrite | TakeRead | DropRead

  /** Taking may have to wait: a writer for everybody, a reader for the writer. */
  predicate CanMove(l: RwMutex, m: Move) {
    match m
    case TakeWrite => l.writer.None? && l.readers == {}
    case TakeRead => l.writer.None?
    case _ => true
  }

  function After(l: RwMutex, m: Move, t: nat): RwMutex {
    match m
    case Stay => l
    case TakeWrite => l.(writer := Some(t))
    case DropWrite => l.(writer := None)
    case TakeRead => l.(readers := l.readers + {t})
    case DropRead => l.(readers := l.readers - {t})
  }
}
