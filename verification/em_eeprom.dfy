/** Em_EEPROM_Write (interface.c): an emulated EEPROM in program flash,
    written by copy-modify-write of whole rows. Flash is a byte sequence
    based at address 0 on a single-array device; the row write primitive is
    an oracle that reports a status per call. */
module EmEeprom {
  import opened FixedPoint

  /** Flash geometry: CY_FLASH_SIZEOF_ROW bytes per row and
      CY_FLASH_SIZEOF_ARRAY bytes per array. With a single array the array
      is the whole flash (CYDEV_FLASH_SIZE). */
  datatype Geometry = Geometry(rowSize: nat, arraySize: nat)

  /** Rows tile the array and every address fits in a uint32. */
  predicate ValidGeometry(g: Geometry)
  {
    0 < g.rowSize && 0 < g.arraySize && g.arraySize % g.rowSize == 0 && g.arraySize < Uint32Limit
  }

  /** Em_EEPROM_FLASH_BASE_ADDR. The code uses the absolute address of the
      target as its offset into flash, which is right only for base 0. */
  const FlashBase: nat := 0

  /** Em_EEPROM_ROWS_IN_ARRAY. */
  function RowsInArray(g: Geometry): nat
    requires 0 < g.rowSize
  {
    g.arraySize / g.rowSize
  }

  /** Em_EEPROM_FLASH_END_ADDR: one past the last flash address. */
  function FlashEnd(g: Geometry): nat
  {
    FlashBase + g.arraySize
  }

  /** A cystatus: the three codes Em_EEPROM_Write documents, plus any other
      code the row write primitive may report. */
  datatype Status = Success | BadParam | Unknown | Other(code: nat)

  /** The codes Em_EEPROM_Write may return. */
  predicate Documented(rc: Status)
  {
    rc.Success? || rc.BadParam? || rc.Unknown?
  }

  /** The final masking step: any code other than SUCCESS and BAD_PARAM
      becomes UNKNOWN. */
  function Mask(rc: Status): (r: Status)
    ensures Documented(r)
    ensures r.Success? <==> rc.Success?
    ensures Documented(rc) ==> r == rc
  {
    if rc.Success? || rc.BadParam? then rc else Unknown
  }

  /** What address `a` should hold once `n` bytes of `src` are written at `ptr`. */
  function Target(flash: seq<byte>, src: seq<byte>, ptr: nat, n: nat, a: nat): byte
    requires a < |flash| && n <= |src|
  {
    if ptr <= a < ptr + n then src[a - ptr] else flash[a]
  }

  /** The first address of row `row`: `row * rowSize`, built up one row at a
      time so that address arithmetic in the write loop stays linear. */
  function RowStart(row: nat, rowSize: nat): nat
  {
    if row == 0 then 0 else RowStart(row - 1, rowSize) + rowSize
  }

  lemma {:induction false} RowStartIsProduct(row: nat, rowSize: nat)
    ensures RowStart(row, rowSize) == row * rowSize
  {
    if row > 0 {
      RowStartIsProduct(row - 1, rowSize);
      assert (row - 1) * rowSize + rowSize == row * rowSize;
    }
  }

  /** Later rows start later. */
  lemma {:induction false} RowStartMonotone(a: nat, b: nat, rowSize: nat)
    requires a <= b
    ensures RowStart(a, rowSize) <= RowStart(b, rowSize)
  {
    if a < b {
      RowStartMonotone(a, b - 1, rowSize);
    }
  }

  /** Row `row` shares at least one address with the range [ptr, ptr + n). */
  predicate Overlaps(g: Geometry, row: nat, ptr: nat, n: nat)
  {
    0 < n && RowStart(row, g.rowSize) < ptr + n && ptr < RowStart(row, g.rowSize) + g.rowSize
  }

  /** The number of source bytes consumed once the copy has reached address
      `offset`: none before `ptr`, one per address after it, at most `n`. */
  function Consumed(offset: int, ptr: nat, n: nat): nat
  {
    if offset < ptr then 0 else if offset - ptr > n then n else offset - ptr
  }

  /** CySysFlashWriteRow(rowId, buf) as this model sees it: row `rowId`
      receives `buf` when the write reports success and keeps its contents
      otherwise. */
  function WriteRow(flash: seq<byte>, rowSize: nat, rowId: nat, buf: seq<byte>, status: Status): (flash': seq<byte>)
    requires |buf| == rowSize && RowStart(rowId, rowSize) + rowSize <= |flash|
    ensures |flash'| == |flash|
    ensures forall a :: 0 <= a < |flash| ==>
              flash'[a] == if status.Success? && RowStart(rowId, rowSize) <= a < RowStart(rowId, rowSize) + rowSize
                           then buf[a - RowStart(rowId, rowSize)] else flash[a]
  {
    var start := RowStart(rowId, rowSize);
    if status.Success? then flash[..start] + buf + flash[start + rowSize..] else flash
  }

  /** Euclidean division of a natural number. */
  lemma DivMod(x: nat, d: nat)
    requires 0 < d
    ensures x == (x / d) * d + x % d && 0 <= x % d < d
  {
  }

  lemma DivOfSmaller(x: nat, d: nat)
    requires x < d
    ensures x / d == 0 && x % d == x
  {
    var q := x / d;
    assert x == d * q + x % d;
    if q >= 1 {
      MulMonotone(1, q, d);
    }
  }

  /** The arithmetic of the set-up before the row loop: on a single array the
      array index is 0, the row index is the row holding `ptr`, and the byte
      offset is that row's first address. */
  lemma FirstRow(g: Geometry, ptr: nat)
    requires ValidGeometry(g) && ptr < g.arraySize
    ensures ptr / g.arraySize == 0
    ensures (ptr / g.rowSize) % RowsInArray(g) == ptr / g.rowSize
    ensures g.arraySize * 0 + g.rowSize * (ptr / g.rowSize) == RowStart(ptr / g.rowSize, g.rowSize)
    ensures RowStart(ptr / g.rowSize, g.rowSize) <= ptr < RowStart(ptr / g.rowSize, g.rowSize) + g.rowSize
    ensures g.arraySize == RowStart(RowsInArray(g), g.rowSize)
  {
    var r := g.rowSize;
    var q := ptr / r;
    var rows := RowsInArray(g);
    DivOfSmaller(ptr, g.arraySize);
    RowStartIsProduct(q, r);
    RowStartIsProduct(rows, r);
    DivMod(g.arraySize, r);
    DivMod(ptr, r);
    assert q < rows by {
      if rows <= q {
        MulMonotone(rows, q, r);
      }
    }
    DivOfSmaller(q, rows);
  }

  /** The geometry macros: the rows of an array tile it exactly, and the
      end of flash is where the row after the last one would start. */
  lemma GeometryMacros(g: Geometry)
    requires ValidGeometry(g)
    ensures RowsInArray(g) * g.rowSize == g.arraySize
    ensures RowStart(RowsInArray(g), g.rowSize) == FlashEnd(g)
  {
    DivMod(g.arraySize, g.rowSize);
    RowStartIsProduct(RowsInArray(g), g.rowSize);
  }

  /** A row that starts inside the array ends inside it. */
  lemma RowWithinArray(row: nat, rowSize: nat, rows: nat)
    requires RowStart(row, rowSize) < RowStart(rows, rowSize)
    ensures RowStart(row, rowSize) + rowSize <= RowStart(rows, rowSize)
  {
    if rows <= row {
      RowStartMonotone(rows, row, rowSize);
    }
    RowStartMonotone(row + 1, rows, rowSize);
  }

  /** Every row overlapping [ptr, ptr + n) lies between the row holding `ptr`
      and the first row starting at or after `ptr + n`. */
  lemma OverlapBetween(g: Geometry, row: nat, ptr: nat, n: nat, first: nat, stop: nat)
    requires RowStart(first, g.rowSize) <= ptr && ptr + n <= RowStart(stop, g.rowSize)
    requires Overlaps(g, row, ptr, n)
    ensures first <= row < stop
  {
    if row < first {
      RowStartMonotone(row + 1, first, g.rowSize);
    }
    if stop <= row {
      RowStartMonotone(stop, row, g.rowSize);
    }
  }

  /** The inner loop of Em_EEPROM_Write: build the buffer for the row
      starting at `rowStart`, taking the next source byte for each address
      of the target range and the current flash byte for every other
      address. Returns the buffer and the advanced source index. */
  method FillRowBuffer(flash: seq<byte>, src: seq<byte>, ptr: nat, byteCount: nat,
                       rowStart: nat, rowSize: nat, srcIndex: nat)
    returns (buf: seq<byte>, srcIndex': nat)
    requires rowStart + rowSize <= |flash| && byteCount <= |src|
    requires srcIndex == Consumed(rowStart, ptr, byteCount)
    ensures |buf| == rowSize
    ensures forall k :: 0 <= k < rowSize ==> buf[k] == Target(flash, src, ptr, byteCount, rowStart + k)
    ensures srcIndex' == Consumed(rowStart + rowSize, ptr, byteCount)
  {
    buf := [];
    srcIndex' := srcIndex;
    var byteOffset := rowStart;
    var dst := 0;
    while dst < rowSize
      invariant 0 <= dst <= rowSize
      invariant byteOffset == rowStart + dst
      invariant srcIndex' == Consumed(byteOffset, ptr, byteCount)
      invariant |buf| == dst
      invariant forall k :: 0 <= k < dst ==> buf[k] == Target(flash, src, ptr, byteCount, rowStart + k)
    {
      if byteOffset >= ptr && srcIndex' < byteCount {
        buf := buf + [src[srcIndex']];
        srcIndex' := srcIndex' + 1;
      } else {
        buf := buf + [flash[byteOffset]];
      }
      byteOffset := byteOffset + 1;
      dst := dst + 1;
    }
  }

  /** One step of the row loop on the flash contents: if everything below
      `rowStart` already holds its target value and everything from it on is
      untouched, then after the row write everything below the end of the row
      holds its target value (or, when the write failed, everything below the
      row does and the rest is untouched). */
  lemma CommitRow(flash: seq<byte>, src: seq<byte>, ptr: nat, n: nat, before: seq<byte>, after: seq<byte>,
                  rowStart: nat, buf: seq<byte>, ok: bool)
    requires |before| == |flash| && |after| == |flash| && n <= |src|
    requires rowStart + |buf| <= |flash|
    requires forall a :: 0 <= a < |flash| ==>
               before[a] == if a < rowStart then Target(flash, src, ptr, n, a) else flash[a]
    requires forall k :: 0 <= k < |buf| ==> buf[k] == Target(flash, src, ptr, n, rowStart + k)
    requires forall a :: 0 <= a < |flash| ==>
               after[a] == if ok && rowStart <= a < rowStart + |buf| then buf[a - rowStart] else before[a]
    ensures forall a :: 0 <= a < |flash| ==>
              after[a] == if a < rowStart + |buf| && (ok || a < rowStart)
                          then Target(flash, src, ptr, n, a) else flash[a]
  {
    forall a | 0 <= a < |flash|
      ensures after[a] == if a < rowStart + |buf| && (ok || a < rowStart)
                          then Target(flash, src, ptr, n, a) else flash[a]
    {
      if ok && rowStart <= a < rowStart + |buf| {
        assert buf[a - rowStart] == Target(flash, src, ptr, n, rowStart + (a - rowStart));
      }
    }
  }

  /** Where the row loop stands: the current row index, its first address
      and the number of source bytes consumed are in step, and a row has
      been written only if there is something to write. */
  ghost predicate Positioned(g: Geometry, flashSize: nat, ptr: nat, n: nat,
                             rows: seq<nat>, rowId: nat, byteOffset: nat, srcIndex: nat)
    requires 0 < g.rowSize
  {
    && rowId == ptr / g.rowSize + |rows|
    && byteOffset == RowStart(rowId, g.rowSize)
    && byteOffset <= flashSize
    && ptr < byteOffset + g.rowSize
    && srcIndex == Consumed(byteOffset, ptr, n)
    && (rows != [] ==> 0 < n)
  }

  /** The rows written so far: consecutive from the row holding `ptr`, each
      overlapping the target, each write but the last successful, and the
      last one's status is the loop's current status. */
  ghost predicate RowsSoFar(g: Geometry, ptr: nat, n: nat, rowStatus: nat -> Status, rows: seq<nat>, rc: Status)
    requires 0 < g.rowSize
  {
    && (forall j :: 0 <= j < |rows| ==> rows[j] == ptr / g.rowSize + j)
    && (forall j :: 0 <= j < |rows| ==> Overlaps(g, rows[j], ptr, n))
    && (forall j :: 0 <= j < |rows| - 1 ==> rowStatus(j) == Success)
    && (rows == [] ==> rc == Success)
    && (rows != [] ==> rc == rowStatus(|rows| - 1))
  }

  /** The flash contents so far: below `upTo` every address holds its
      target value (only below the last row when its write failed), and
      every other address holds its original value. */
  ghost predicate Committed(flash: seq<byte>, src: seq<byte>, ptr: nat, n: nat,
                            current: seq<byte>, upTo: nat, rowSize: nat, ok: bool)
  {
    && |current| == |flash|
    && n <= |src|
    && forall a :: 0 <= a < |current| ==>
         current[a] == if a < upTo && (ok || a < upTo - rowSize)
                       then Target(flash, src, ptr, n, a) else flash[a]
  }

  /** One pass of the row loop: fill the buffer of the current row, write
      it, and move on to the next row. */
  method WriteNextRow(g: Geometry, flash: seq<byte>, src: seq<byte>, ptr: nat, byteCount: nat,
                      rowStatus: nat -> Status, current: seq<byte>, rows: seq<nat>,
                      rowId: nat, byteOffset: nat, srcIndex: nat)
    returns (current': seq<byte>, rows': seq<nat>, rowId': nat, byteOffset': nat, srcIndex': nat, rc: Status)
    requires ValidGeometry(g) && |flash| == g.arraySize
    requires ptr + byteCount < FlashEnd(g) && srcIndex < byteCount
    requires Positioned(g, |flash|, ptr, byteCount, rows, rowId, byteOffset, srcIndex)
    requires RowsSoFar(g, ptr, byteCount, rowStatus, rows, Success)
    requires Committed(flash, src, ptr, byteCount, current, byteOffset, g.rowSize, true)
    ensures Positioned(g, |flash|, ptr, byteCount, rows', rowId', byteOffset', srcIndex')
    ensures RowsSoFar(g, ptr, byteCount, rowStatus, rows', rc)
    ensures Committed(flash, src, ptr, byteCount, current', byteOffset', g.rowSize, rc.Success?)
    ensures rows' != [] && byteOffset < byteOffset'
  {
    var R := g.rowSize;
    assert Overlaps(g, rowId, ptr, byteCount) && byteOffset + R <= |flash| by {
      FirstRow(g, ptr);
      RowWithinArray(rowId, R, RowsInArray(g));
    }
    var buf;
    buf, srcIndex' := FillRowBuffer(current, src, ptr, byteCount, byteOffset, R, srcIndex);
    byteOffset' := byteOffset + R;
    rc := rowStatus(|rows|);
    current' := WriteRow(current, R, rowId, buf, rc);
    rows' := rows + [rowId];
    rowId' := rowId + 1;
    CommitNextRow(flash, src, ptr, byteCount, current, current', byteOffset, buf, rc.Success?);
    AdvancePosition(g, |flash|, ptr, byteCount, rows, rowId, byteOffset, srcIndex, srcIndex');
    AdvanceRows(g, ptr, byteCount, rowStatus, rows, rowId);
  }

  /** The flash contents after one more row write. */
  lemma CommitNextRow(flash: seq<byte>, src: seq<byte>, ptr: nat, n: nat, current: seq<byte>, current': seq<byte>,
                      rowStart: nat, buf: seq<byte>, ok: bool)
    requires Committed(flash, src, ptr, n, current, rowStart, |buf|, true)
    requires rowStart + |buf| <= |flash|
    requires forall k :: 0 <= k < |buf| ==> buf[k] == Target(current, src, ptr, n, rowStart + k)
    requires |current'| == |flash|
    requires forall a :: 0 <= a < |flash| ==>
               current'[a] == if ok && rowStart <= a < rowStart + |buf| then buf[a - rowStart] else current[a]
    ensures Committed(flash, src, ptr, n, current', rowStart + |buf|, |buf|, ok)
  {
    assert forall k :: 0 <= k < |buf| ==> buf[k] == Target(flash, src, ptr, n, rowStart + k) by {
      assert forall a :: rowStart <= a < |current| ==> current[a] == flash[a];
    }
    CommitRow(flash, src, ptr, n, current, current', rowStart, buf, ok);
  }

  /** The loop position after one more row. */
  lemma AdvancePosition(g: Geometry, flashSize: nat, ptr: nat, n: nat, rows: seq<nat>, rowId: nat,
                        byteOffset: nat, srcIndex: nat, srcIndex': nat)
    requires 0 < g.rowSize
    requires Positioned(g, flashSize, ptr, n, rows, rowId, byteOffset, srcIndex)
    requires srcIndex < n && byteOffset + g.rowSize <= flashSize
    requires srcIndex' == Consumed(byteOffset + g.rowSize, ptr, n)
    ensures Positioned(g, flashSize, ptr, n, rows + [rowId], rowId + 1, byteOffset + g.rowSize, srcIndex')
  {
  }

  /** The rows written after one more row write. */
  lemma AdvanceRows(g: Geometry, ptr: nat, n: nat, rowStatus: nat -> Status, rows: seq<nat>, rowId: nat)
    requires 0 < g.rowSize
    requires RowsSoFar(g, ptr, n, rowStatus, rows, Success)
    requires rowId == ptr / g.rowSize + |rows| && Overlaps(g, rowId, ptr, n)
    ensures RowsSoFar(g, ptr, n, rowStatus, rows + [rowId], rowStatus(|rows|))
  {
  }

  /** The row loop of Em_EEPROM_Write, entered once the range has passed the
      bounds check. Returns the status of the last row write (before
      masking), the new flash contents and the rows written in order. */
  method WriteRows(g: Geometry, flash: seq<byte>, src: seq<byte>, ptr: nat, byteCount: nat, rowStatus: nat -> Status)
    returns (rc: Status, flash': seq<byte>, rows: seq<nat>)
    requires ValidGeometry(g) && |flash| == g.arraySize
    requires byteCount <= |src|
    requires ptr + byteCount < FlashEnd(g)
    ensures |flash'| == |flash|
    ensures byteCount == 0 ==> rc == Success && rows == [] && flash' == flash
    ensures forall a :: 0 <= a < |flash| && !(ptr <= a < ptr + byteCount) ==> flash'[a] == flash[a]
    ensures rc == Success ==> forall a :: ptr <= a < ptr + byteCount ==> flash'[a] == src[a - ptr]
    ensures forall j :: 0 <= j < |rows| ==> rows[j] == ptr / g.rowSize + j
    ensures forall j :: 0 <= j < |rows| ==> Overlaps(g, rows[j], ptr, byteCount)
    ensures rc == Success ==> forall row: nat :: Overlaps(g, row, ptr, byteCount) ==> row in rows
    ensures forall j :: 0 <= j < |rows| - 1 ==> rowStatus(j) == Success
    ensures rc == Success && rows != [] ==> rowStatus(|rows| - 1) == Success
    ensures rc != Success ==> rows != [] && rc == rowStatus(|rows| - 1)
    ensures rc != Success ==>
              forall a :: RowStart(rows[|rows| - 1], g.rowSize) <= a < |flash| ==> flash'[a] == flash[a]
    ensures rc != Success ==>
              forall a :: ptr <= a < ptr + byteCount && a < RowStart(rows[|rows| - 1], g.rowSize) ==> flash'[a] == src[a - ptr]
  {
    var R := g.rowSize;
    var fl := flash;
    var eeOffset := ptr;
    rows := [];
    FirstRow(g, ptr);
    var arrayId := eeOffset / g.arraySize;
    var rowId: nat := (eeOffset / R) % RowsInArray(g);
    var byteOffset: nat := g.arraySize * arrayId + R * rowId;
    var srcIndex: nat := 0;
    rc := Success;
    while srcIndex < byteCount && rc == Success
      invariant Positioned(g, |flash|, ptr, byteCount, rows, rowId, byteOffset, srcIndex)
      invariant RowsSoFar(g, ptr, byteCount, rowStatus, rows, rc)
      invariant Committed(flash, src, ptr, byteCount, fl, byteOffset, R, rc.Success?)
      invariant rows == [] ==> fl == flash
      decreases |flash| - byteOffset
    {
      fl, rows, rowId, byteOffset, srcIndex, rc :=
        WriteNextRow(g, flash, src, eeOffset, byteCount, rowStatus, fl, rows, rowId, byteOffset, srcIndex);
    }
    RowLoopExit(g, flash, src, ptr, byteCount, rowStatus, fl, rows, rowId, byteOffset, srcIndex, rc);
    flash' := fl;
  }

  /** What the row loop has achieved once it stops, either because every
      source byte is written or because a row write failed. */
  lemma RowLoopExit(g: Geometry, flash: seq<byte>, src: seq<byte>, ptr: nat, byteCount: nat,
                    rowStatus: nat -> Status, fl: seq<byte>, rows: seq<nat>,
                    rowId: nat, byteOffset: nat, srcIndex: nat, rc: Status)
    requires ValidGeometry(g) && |flash| == g.arraySize && byteCount <= |src|
    requires Positioned(g, |flash|, ptr, byteCount, rows, rowId, byteOffset, srcIndex)
    requires RowsSoFar(g, ptr, byteCount, rowStatus, rows, rc)
    requires Committed(flash, src, ptr, byteCount, fl, byteOffset, g.rowSize, rc.Success?)
    requires rows == [] ==> fl == flash
    requires !(srcIndex < byteCount && rc == Success)
    ensures |fl| == |flash|
    ensures byteCount == 0 ==> rc == Success && rows == [] && fl == flash
    ensures forall a :: 0 <= a < |flash| && !(ptr <= a < ptr + byteCount) ==> fl[a] == flash[a]
    ensures rc == Success ==> forall a :: ptr <= a < ptr + byteCount ==> fl[a] == src[a - ptr]
    ensures rc == Success ==> forall row: nat :: Overlaps(g, row, ptr, byteCount) ==> row in rows
    ensures rc != Success ==> rows != [] && RowStart(rows[|rows| - 1], g.rowSize) == byteOffset - g.rowSize
  {
    var R := g.rowSize;
    if rc == Success {
      forall row: nat | Overlaps(g, row, ptr, byteCount)
        ensures row in rows
      {
        FirstRow(g, ptr);
        OverlapBetween(g, row, ptr, byteCount, ptr / R, rowId);
        assert rows[row - ptr / R] == row;
      }
    } else {
      assert rows[|rows| - 1] == rowId - 1;
    }
  }

  /** Em_EEPROM_Write(srcBuf, eepromPtr, byteCount) on `flash`, with the k-th
      row write of the call reporting `rowStatus(k)`. Returns the status, the
      new flash contents and the rows written in order.

      A range reaching the end of flash is refused with BAD_PARAM and nothing
      is written. Otherwise the rows overlapping the target are written one
      after another, starting at the row holding `ptr`, each buffer built
      from the current flash contents with the source bytes laid over the
      target range; the first failed row write ends the call. Whatever
      happens, no address outside the target range changes, and on success
      the target range holds the source bytes. */
  method Write(g: Geometry, flash: seq<byte>, src: seq<byte>, ptr: nat, byteCount: nat, rowStatus: nat -> Status)
    returns (rc: Status, flash': seq<byte>, rows: seq<nat>)
    requires ValidGeometry(g) && |flash| == g.arraySize
    requires byteCount <= |src|
    requires ptr + byteCount < Uint32Limit
    ensures Documented(rc)
    ensures |flash'| == |flash|
    ensures ptr + byteCount >= FlashEnd(g) ==> rc == BadParam && rows == [] && flash' == flash
    ensures ptr + byteCount < FlashEnd(g) && byteCount == 0 ==> rc == Success && rows == [] && flash' == flash
    ensures forall a :: 0 <= a < |flash| && !(ptr <= a < ptr + byteCount) ==> flash'[a] == flash[a]
    ensures rc == Success ==> ptr + byteCount < |flash| && flash'[ptr..ptr + byteCount] == src[..byteCount]
    ensures forall j :: 0 <= j < |rows| ==> rows[j] == ptr / g.rowSize + j
    ensures forall j :: 0 <= j < |rows| ==> Overlaps(g, rows[j], ptr, byteCount)
    ensures rc == Success ==> forall row: nat :: Overlaps(g, row, ptr, byteCount) ==> row in rows
    ensures forall j :: 0 <= j < |rows| - 1 ==> rowStatus(j) == Success
    ensures rc == Success && rows != [] ==> rowStatus(|rows| - 1) == Success
    ensures ptr + byteCount < FlashEnd(g) && rc != Success ==>
              rows != [] && !rowStatus(|rows| - 1).Success? && rc == Mask(rowStatus(|rows| - 1))
    ensures rc != Success && rows != [] ==>
              forall a :: RowStart(rows[|rows| - 1], g.rowSize) <= a < |flash| ==> flash'[a] == flash[a]
    ensures rc != Success && rows != [] ==>
              forall a :: ptr <= a < ptr + byteCount && a < RowStart(rows[|rows| - 1], g.rowSize) ==> flash'[a] == src[a - ptr]
  {
    if ptr + byteCount < FlashEnd(g) {
      var status;
      status, flash', rows := WriteRows(g, flash, src, ptr, byteCount, rowStatus);
      rc := Mask(status);
    } else {
      rc, flash', rows := BadParam, flash, [];
    }
  }
}
