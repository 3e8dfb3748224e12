/** A JSON file of the data directory, as both routes use it through their
    identical `ensureFileExists`, `readJsonFile` and `fs.writeFile` calls.
    The file's bytes are abstracted to what JSON.parse makes of them. */
module JsonStore {

  /** What is on disk: nothing, text that JSON.parse rejects, or a value. */
  datatype FileState<T> = Missing | Unparsable | Stored(value: T)

  /** The file after `ensureFileExists(path, JSON.stringify(defaultValue))`. */
  function Ensured<T>(f: FileState<T>, defaultValue: T): (r: FileState<T>)
    ensures !r.Missing?
    ensures f.Missing? ==> r == Stored(defaultValue)
    ensures !f.Missing? ==> r == f
  {
    if f.Missing? then Stored(defaultValue) else f
  }

  /** The value `readJsonFile(path, defaultValue)` returns. */
  function ReadValue<T>(f: FileState<T>, defaultValue: T): (v: T)
    ensures f.Stored? ==> v == f.value
    ensures !f.Stored? ==> v == defaultValue
  {
    if f.Stored? then f.value else defaultValue
  }

  /** Ensuring existence never changes what a read returns, and reading a
      second time neither changes the file nor sees anything different. */
  lemma ReadIsStable<T>(f: FileState<T>, defaultValue: T)
    ensures ReadValue(Ensured(f, defaultValue), defaultValue) == ReadValue(f, defaultValue)
    ensures Ensured(Ensured(f, defaultValue), defaultValue) == Ensured(f, defaultValue)
    ensures !Ensured(f, defaultValue).Missing?
  {
  }

  class JsonFile<T> {
    var state: FileState<T>

    constructor (initial: FileState<T>)
      ensures state == initial
    {
      state := initial;
    }

    /** Creates the file holding the default when it is absent; otherwise
        leaves it alone, even when its content is unparsable. */
    method EnsureFileExists(defaultValue: T)
      modifies this
      ensures state == (if old(state).Missing? then Stored(defaultValue) else old(state))
    {
      if state.Missing? {
        state := Stored(defaultValue);
      }
    }

    /** Returns the parsed content, or the default when the file was absent
        (after creating it) or does not parse (leaving it as it is). */
    method ReadJsonFile(defaultValue: T) returns (value: T)
      modifies this
      ensures state == Ensured(old(state), defaultValue)
      ensures value == ReadValue(old(state), defaultValue)
    {
      EnsureFileExists(defaultValue);
      match state
      case Stored(v) => value := v;
      case _ => value := defaultValue;
    }

    /** Replaces the whole file with the serialised value. */
    method WriteFile(value: T)
      modifies this
      ensures state == Stored(value)
    {
      state := Stored(value);
    }
  }
}
