/** The scanner's global state and its main detection step: the sample
    counter, the per-key debounce table, the bounded buffer of reported key
    indices, the guarded append into it, and the call that either samples
    the matrix or assesses the table. */
module ScanLoop {
  import opened DebounceSpec

  class Scanner {
    /** Number of keys the table is sized for (KEYBOARD_SIZE). */
    const keyboardSize: nat
    /** Capacity of the output buffer (KEYBOARD_BUFFER). */
    const bufferCapacity: nat
    /** Highest key index that an assessment looks at (KeyIndex_Size). */
    const keyIndexSize: nat
    /** Whether the matrix is scanned in dual-pass mode (scanMode == scanDual). */
    const dual: bool

    /** Sampling calls since the last assessment (scan_count). */
    var scanCount: uint8
    /** Debounce table, one cell per key index, cell 0 unused (KeyIndex_Array). */
    var table: array<bv8>
    /** Key indices reported as pressed (KeyIndex_Buffer). */
    var buffer: array<uint8>
    /** Number of entries of buffer in use (KeyIndex_BufferUsed). */
    var bufferUsed: uint8

    ghost predicate Valid()
      reads this
    {
      && table.Length == keyboardSize + 1
      && buffer.Length == bufferCapacity
      && table as object != buffer
      && keyIndexSize <= keyboardSize
      && keyIndexSize < 0xFF
      && bufferCapacity < 0x100
      && bufferUsed as int <= bufferCapacity
      && scanCount <= CounterBound(dual)
    }

    /** The reported key indices, oldest first. */
    ghost function Contents(): seq<uint8>
      reads this, buffer
      requires Valid()
    {
      buffer[..bufferUsed]
    }

    /** The state at power-up: every global starts at zero. */
    constructor (keyboardSize: nat, bufferCapacity: nat, keyIndexSize: nat, dual: bool)
      requires keyIndexSize <= keyboardSize && keyIndexSize < 0xFF
      requires bufferCapacity < 0x100
      ensures Valid() && fresh(table) && fresh(buffer)
      ensures this.keyboardSize == keyboardSize && this.bufferCapacity == bufferCapacity
      ensures this.keyIndexSize == keyIndexSize && this.dual == dual
      ensures scanCount == 0 && bufferUsed == 0 && Contents() == []
      ensures forall k :: 0 <= k < table.Length ==> table[k] == 0
    {
      this.keyboardSize := keyboardSize;
      this.bufferCapacity := bufferCapacity;
      this.keyIndexSize := keyIndexSize;
      this.dual := dual;
      scanCount := 0;
      table := new bv8[keyboardSize + 1](_ => 0);
      buffer := new uint8[bufferCapacity](_ => 0);
      bufferUsed := 0;
    }

    /** The guarded append: b is stored only while the buffer has room; a full
        buffer is left as it was. */
    method BufferAdd(b: uint8)
      requires Valid()
      modifies this`bufferUsed, buffer
      ensures Valid()
      ensures Contents() == Add(old(Contents()), b, bufferCapacity)
      ensures forall i :: bufferUsed as int <= i < bufferCapacity ==> buffer[i] == old(buffer[i])
      ensures old(bufferUsed) as int == bufferCapacity ==> bufferUsed == old(bufferUsed) && buffer[..] == old(buffer[..])
    {
      if bufferUsed as int < bufferCapacity {
        buffer[bufferUsed] := b;
        bufferUsed := bufferUsed + 1;
      }
    }

    /** The external matrix read: it may rewrite any cell of the table; what
        it leaves there is given by the caller as scanned. */
    method MatrixScan(scanned: seq<bv8>)
      requires Valid() && |scanned| == table.Length
      modifies table
      ensures table[..] == scanned
    {
      forall k | 0 <= k < table.Length {
        table[k] := scanned[k];
      }
    }

    /** One pass of the main detection loop. While fewer than MAX_SAMPLES
        samples are in, it reads the matrix, advances the counter and returns
        0. Otherwise it resets the counter without reading the matrix,
        assesses the table and returns 1. */
    method ScanLoop(scanned: seq<bv8>) returns (r: uint8)
      requires Valid() && |scanned| == table.Length
      modifies this`scanCount, table, this`bufferUsed, buffer
      ensures Valid()
      ensures scanCount == NextCount(old(scanCount), dual)
      ensures r == if old(scanCount) < MAX_SAMPLES then 0 else 1
      ensures old(scanCount) < MAX_SAMPLES ==>
        && table[..] == scanned
        && bufferUsed == old(bufferUsed)
        && buffer[..] == old(buffer[..])
      ensures old(scanCount) >= MAX_SAMPLES ==>
        && table[..] == AssessTable(old(table[..]), keyIndexSize)
        && Contents() == AppendAll(old(Contents()), PassingKeys(old(table[..]), keyIndexSize), bufferCapacity)
        && forall i :: bufferUsed as int <= i < bufferCapacity ==> buffer[i] == old(buffer[i])
    {
      if scanCount < MAX_SAMPLES {
        MatrixScan(scanned);
        scanCount := scanCount + Step(dual);
        return 0;
      }

      scanCount := 0;
      Assess();
      return 1;
    }

    /** The assessment loop over keys 1..keyIndexSize, in ascending order. */
    method Assess()
      requires Valid()
      modifies table, this`bufferUsed, buffer
      ensures Valid()
      ensures table[..] == AssessTable(old(table[..]), keyIndexSize)
      ensures Contents() == AppendAll(old(Contents()), PassingKeys(old(table[..]), keyIndexSize), bufferCapacity)
      ensures forall i :: bufferUsed as int <= i < bufferCapacity ==> buffer[i] == old(buffer[i])
    {
      ghost var t := table[..];
      ghost var before := Contents();
      var key := 1;
      while key < keyIndexSize + 1
        invariant Valid()
        invariant 1 <= key <= keyIndexSize + 1
        invariant table[..] == AssessTable(t, key - 1)
        invariant Contents() == AppendAll(before, PassingKeys(t, key - 1), bufferCapacity)
        invariant forall i :: bufferUsed as int <= i < bufferCapacity ==> buffer[i] == old(buffer[i])
      {
        AppendNext(before, t, key, bufferCapacity);
        AssessNext(t, key);
        AssessKey(key);
        key := key + 1;
      }
    }

    /** One turn of the assessment loop: a key whose masked count is above
        SAMPLE_THRESHOLD has its index appended to the buffer and its cell
        latched; any other key has its cell cleared. */
    method AssessKey(key: nat)
      requires Valid() && 1 <= key <= keyIndexSize
      modifies table, this`bufferUsed, buffer
      ensures Valid()
      ensures table[..] == old(table[..])[key := Assessed(old(table[key]))]
      ensures Contents() == if IsPressed(old(table[key])) then Add(old(Contents()), key as uint8, bufferCapacity) else old(Contents())
      ensures forall i :: bufferUsed as int <= i < bufferCapacity ==> buffer[i] == old(buffer[i])
    {
      if SampleCount(table[key]) > SAMPLE_THRESHOLD {
        BufferAdd(key as uint8);
        table[key] := LATCHED;
      } else {
        table[key] := 0x00;
      }
    }
  }
}
