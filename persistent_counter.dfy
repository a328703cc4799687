/**
 * The relay's persistent counter: a count kept as decimal text in one file of
 * a file store, read back on every query so that a new counter on the same
 * path continues where the previous one stopped.
 */
module Counter {
  import opened Wrappers

  // ---------------------------------------------------------------------------
  // The file format: the count written out in decimal
  // ---------------------------------------------------------------------------

  predicate IsDigit(c: char)
  {
    '0' <= c <= '9'
  }

  /** Non-empty text made only of decimal digits. */
  predicate IsNumeral(text: string)
  {
    |text| > 0 && forall i :: 0 <= i < |text| ==> IsDigit(text[i])
  }

  /** A numeral without superfluous leading zeros, as the counter writes it. */
  predicate IsCanonical(text: string)
  {
    IsNumeral(text) && (|text| > 1 ==> text[0] != '0')
  }

  function DigitValue(c: char): (d: nat)
    requires IsDigit(c)
  {
    c as int - '0' as int
  }

  function DigitChar(d: nat): (c: char)
    requires d < 10
  {
    ('0' as int + d) as char
  }

  /** The value of a string of digits, most significant first. */
  function DecimalValue(text: string): (value: nat)
    requires forall i :: 0 <= i < |text| ==> IsDigit(text[i])
  {
    if text == [] then 0
    else 10 * DecimalValue(text[..|text| - 1]) + DigitValue(text[|text| - 1])
  }

  /**
   * The count a file's text stands for. Text without a single digit in it,
   * "bla" among others, counts as 0.
   */
  function Parse(text: string): (count: nat)
    ensures (forall i :: 0 <= i < |text| ==> !IsDigit(text[i])) ==> count == 0
  {
    if IsNumeral(text) then DecimalValue(text) else 0
  }

  /** The decimal text the counter writes for `count`. */
  function Serialize(count: nat): (text: string)
    ensures IsCanonical(text)
  {
    if count < 10 then [DigitChar(count)]
    else Serialize(count / 10) + [DigitChar(count % 10)]
  }

  /** Reading back what was written gives the count that was written. */
  lemma {:induction false} ParseSerialize(count: nat)
    ensures Parse(Serialize(count)) == count
  {
    if count >= 10 {
      var prefix := Serialize(count / 10);
      var text := prefix + [DigitChar(count % 10)];
      assert text[..|text| - 1] == prefix;
      ParseSerialize(count / 10);
      assert DecimalValue(prefix) == count / 10;
      assert DigitValue(DigitChar(count % 10)) == count % 10;
      assert DecimalValue(text) == 10 * (count / 10) + count % 10;
    } else {
      var text := [DigitChar(count)];
      assert text[..0] == [];
      assert DigitValue(text[0]) == count;
      assert DecimalValue(text) == 10 * DecimalValue(text[..0]) + DigitValue(text[0]);
    }
  }

  /** A canonical numeral with a non-zero leading digit stands for a positive count. */
  lemma {:induction false} LeadingDigitPositive(text: string)
    requires IsNumeral(text) && text[0] != '0'
    ensures DecimalValue(text) > 0
    decreases |text|
  {
    if |text| > 1 {
      LeadingDigitPositive(text[..|text| - 1]);
    }
  }

  /** Writing back what was read from a canonical numeral gives the same text. */
  lemma {:induction false} SerializeParse(text: string)
    requires IsCanonical(text)
    ensures Serialize(Parse(text)) == text
    decreases |text|
  {
    if |text| > 1 {
      var prefix, d := text[..|text| - 1], DigitValue(text[|text| - 1]);
      var v := DecimalValue(prefix);
      LeadingDigitPositive(prefix);
      SerializeParse(prefix);
      assert (10 * v + d) / 10 == v && (10 * v + d) % 10 == d;
      assert DigitChar(d) == text[|text| - 1];
      assert text == prefix + [text[|text| - 1]];
    }
  }

  // ---------------------------------------------------------------------------
  // The file store and the counter
  // ---------------------------------------------------------------------------

  /** The count that the file store `files` records at `path`: 0 when there is no file there. */
  function StoredCount(files: map<string, string>, path: string): (count: nat)
  {
    if path in files then Parse(files[path]) else 0
  }

  /** A file system reduced to what the counter uses: whole-file reads and writes by path. */
  class FileStore {
    var files: map<string, string>

    /** A store holding no files, as a freshly created directory. */
    constructor ()
      ensures files == map[]
    {
      files := map[];
    }

    /** Replaces (or creates) the file at `path`. */
    method WriteFile(path: string, content: string)
      modifies this
      ensures files == old(files)[path := content]
    {
      files := files[path := content];
    }

    /** The content of the file at `path`, or None when there is no such file. */
    method ReadFile(path: string) returns (content: Option<string>)
      ensures path in files ==> content == Some(files[path])
      ensures path !in files ==> content == None
    {
      content := if path in files then Some(files[path]) else None;
    }
  }

  /**
   * A counter persisted in the file at `path` of `store`. The counter keeps
   * no count of its own: every query reads the file.
   */
  class PersistentCounter {
    const store: FileStore
    const path: string

    /** Creating a counter does not touch the store. */
    constructor (store: FileStore, path: string)
      ensures this.store == store && this.path == path
    {
      this.store := store;
      this.path := path;
    }

    /** The count currently persisted for this counter. */
    function Count(): (count: nat)
      reads store
    {
      StoredCount(store.files, path)
    }

    /** The persisted count; 0 for a missing file or one that does not hold a numeral. */
    method GetCount() returns (count: nat)
      ensures count == Count()
      ensures path !in store.files ==> count == 0
      ensures path in store.files && IsNumeral(store.files[path]) ==> count == DecimalValue(store.files[path])
    {
      var content := store.ReadFile(path);
      match content
      case None => count := 0;
      case Some(text) => count := Parse(text);
    }

    /**
     * Adds one to the persisted count, repairing a missing or unreadable file,
     * and returns the new count. Only this counter's file changes.
     */
    method Increment() returns (count: nat)
      modifies store
      ensures count == old(Count()) + 1
      ensures store.files == old(store.files)[path := Serialize(count)]
      ensures Count() == count
    {
      var current := GetCount();
      count := current + 1;
      store.WriteFile(path, Serialize(count));
      ParseSerialize(count);
    }
  }

  // ---------------------------------------------------------------------------
  // The observable behaviour the counter's tests fix, as clients of the class
  // ---------------------------------------------------------------------------

  /** A counter over a path with no file reads 0. */
  method ReadMissingFile(store: FileStore, path: string) returns (count: nat)
    requires path !in store.files
    ensures count == 0
  {
    var counter := new PersistentCounter(store, path);
    count := counter.GetCount();
  }

  /** A counter over a file holding "bla" reads 0. */
  method ReadInvalidFile(store: FileStore, path: string) returns (count: nat)
    modifies store
    ensures count == 0
  {
    var counter := new PersistentCounter(store, path);
    store.WriteFile(path, "bla");
    count := counter.GetCount();
  }

  /** Incrementing a counter with no file makes it read 1. */
  method IncrementMissingFile(store: FileStore, path: string) returns (count: nat)
    requires path !in store.files
    modifies store
    ensures count == 1
  {
    var counter := new PersistentCounter(store, path);
    var _ := counter.Increment();
    count := counter.GetCount();
  }

  /** Incrementing a counter over "bla" repairs the file: it then reads 1. */
  method IncrementInvalidFile(store: FileStore, path: string) returns (count: nat)
    modifies store
    ensures count == 1
  {
    var counter := new PersistentCounter(store, path);
    store.WriteFile(path, "bla");
    var _ := counter.Increment();
    count := counter.GetCount();
  }

  /** Increment returns the new count: 1, then 2, starting from no file. */
  method IncrementReturnsNewCount(store: FileStore, path: string) returns (first: nat, second: nat)
    requires path !in store.files
    modifies store
    ensures first == 1 && second == 2
  {
    var counter := new PersistentCounter(store, path);
    first := counter.Increment();
    second := counter.Increment();
  }

  /** After two increments, a new counter on the same path reads 2. */
  method NewInstanceUsesSameFile(store: FileStore, path: string) returns (count: nat)
    requires path !in store.files
    modifies store
    ensures count == 2
  {
    var counter := new PersistentCounter(store, path);
    var _ := counter.Increment();
    var _ := counter.Increment();
    var counter2 := new PersistentCounter(store, path);
    count := counter2.GetCount();
  }
}
