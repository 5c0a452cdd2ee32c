/** Choosing the initial state: the stored state when there is a usable one,
    the seed otherwise. Reading the browser's storage and parsing JSON are
    outside the model; their outcomes are inputs here. */
module Persistence {
  import opened Domain
  import Seed

  /** What reading the storage slot gave: the read threw, or it returned the
      stored string or nothing (`null`). */
  datatype StorageRead = ReadThrew | Stored(text: Option<string>)

  /** What JSON.parse made of a stored string: it threw, or it produced a state. */
  datatype ParseOutcome = Malformed | Parsed(state: AgentState)

  /** The stored state is adopted only when there is a window, the read
      succeeded, the string is present and non-empty, and it parses. */
  predicate UsesStored(windowPresent: bool, read: StorageRead, parse: string -> ParseOutcome)
    ensures !windowPresent ==> !UsesStored(windowPresent, read, parse)
    ensures read == ReadThrew ==> !UsesStored(windowPresent, read, parse)
    ensures read == Stored(None) || read == Stored(Some("")) ==> !UsesStored(windowPresent, read, parse)
    ensures read.Stored? && read.text.Some? && parse(read.text.value) == Malformed ==>
      !UsesStored(windowPresent, read, parse)
  {
    && windowPresent
    && read.Stored? && read.text.Some? && read.text.value != ""
    && parse(read.text.value).Parsed?
  }

  /** The initial state of the page. */
  function LoadState(windowPresent: bool, read: StorageRead, parse: string -> ParseOutcome, loadTime: int)
    : (s: AgentState)
    ensures UsesStored(windowPresent, read, parse) ==> s == parse(read.text.value).state
    ensures !UsesStored(windowPresent, read, parse) ==> s == Seed.InitialState(loadTime)
  {
    if !windowPresent then Seed.InitialState(loadTime)
    else match read
      case ReadThrew => Seed.InitialState(loadTime)
      case Stored(None) => Seed.InitialState(loadTime)
      case Stored(Some(text)) =>
        if text == "" then Seed.InitialState(loadTime)
        else match parse(text)
          case Parsed(state) => state
          case Malformed => Seed.InitialState(loadTime)
  }

  /** Nothing stored, an empty string, a failed read or corrupt data all start
      the page from the seed: four open tasks and three habits, never a failure. */
  lemma UnusableStorageYieldsSeed(read: StorageRead, parse: string -> ParseOutcome, loadTime: int)
    requires read == ReadThrew || read == Stored(None) || read == Stored(Some(""))
      || (read.Stored? && read.text.Some? && parse(read.text.value) == Malformed)
    ensures forall windowPresent: bool ::
      var s := LoadState(windowPresent, read, parse, loadTime);
      s == Seed.InitialState(loadTime) && |s.tasks| == 4 && |s.habits| == 3
  {
  }
}
