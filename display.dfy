/** The direct-streaming part of the display driver (src/display.cpp): the
    page-height computation, the scratch buffer used to convert grayscale rows
    to black-and-white for partial refresh, and the process-wide streaming
    state that initDirectStreaming, writeRowsDirect and finishDirectStreaming
    drive. Calls into the panel driver are recorded as events in a log. */
module Display {
  import Board

  /** EPD_WIDTH and EPD_HEIGHT of the ED047TC1 panel (DISPLAY_RESOLUTION_X/Y). */
  const EpdWidth: nat := 960
  const EpdHeight: nat := 540

  /** The canonical framebuffer holds EPD_WIDTH * EPD_HEIGHT / 2 bytes: four
      bits per pixel. */
  const FramebufferBpp: nat := 4

  /** The C `uint16_t` of the streaming entry points' parameters. */
  newtype uint16 = x: int | 0 <= x < 0x1_0000

  // ---------------------------------------------------------------------------
  // Page height
  // ---------------------------------------------------------------------------

  /** A page of `rows` rows of `width` pixels at `bpp` bits each fits in the
      page-buffer budget. */
  predicate PageFits(rows: nat, width: nat, bpp: nat) {
    rows * (width * bpp) <= Board.MaxPageBufferSize * 8
  }

  /** CALC_PAGE_HEIGHT: the whole height when it fits in the budget, otherwise
      as many whole rows as fit. A zero row size divides by zero in the source,
      so callers must pass a positive width and depth. */
  function CalcPageHeight(height: nat, width: nat, bpp: nat): (rows: nat)
    requires width * bpp > 0
    ensures rows <= height
  {
    var fitting := (Board.MaxPageBufferSize * 8) / (width * bpp);
    if fitting >= height then height else fitting
  }

  lemma MulMonotone(a: nat, b: nat, k: nat)
    requires a <= b
    ensures a * k <= b * k
  {
  }

  /** The page height is the largest row count up to `height` whose page fits
      in the budget: it fits, and every taller page up to `height` does not. */
  lemma CalcPageHeightIsLargestFit(height: nat, width: nat, bpp: nat)
    requires width * bpp > 0
    ensures PageFits(CalcPageHeight(height, width, bpp), width, bpp)
    ensures forall r: nat {:trigger PageFits(r, width, bpp)} ::
      r <= height && PageFits(r, width, bpp) ==> r <= CalcPageHeight(height, width, bpp)
  {
    var budget, rowBits := Board.MaxPageBufferSize * 8, width * bpp;
    var fitting := budget / rowBits;
    var rows := CalcPageHeight(height, width, bpp);
    assert budget == fitting * rowBits + budget % rowBits;
    assert fitting * rowBits <= budget;
    MulMonotone(rows, fitting, rowBits);
    forall r: nat | r <= height && PageFits(r, width, bpp)
      ensures r <= rows
    {
      if r > rows {
        // Here rows == fitting < height, and one row more than fitting
        // already exceeds the budget.
        assert (fitting + 1) * rowBits == fitting * rowBits + rowBits;
        MulMonotone(fitting + 1, r, rowBits);
      }
    }
  }

  /** On the 960 x 540 panel at four bits per pixel, a 48 KiB page holds 102
      rows: 393216 bits over 3840 bits per row. */
  lemma Epd47PageHeight()
    ensures CalcPageHeight(EpdHeight, EpdWidth, FramebufferBpp) == 102
  {
  }

  // ---------------------------------------------------------------------------
  // Black-and-white conversion buffer
  // ---------------------------------------------------------------------------

  /** Bytes of one packed 1-bit row of `width` pixels: the fewest whole bytes
      that hold `width` bits. */
  function PackedRowBytes(width: nat): (n: nat)
    ensures n * 8 >= width
    ensures n > 0 ==> (n - 1) * 8 < width
  {
    (width + 7) / 8
  }

  /** The scratch region writeRowsDirect needs for `rowCount` packed rows of the
      panel's width. The panel's width is a multiple of 8, so the region holds
      exactly one bit per pixel of the batch, with no padding. */
  function ConvertedSize(rowCount: nat): (n: nat)
    ensures n * 8 == EpdWidth * rowCount
  {
    PackedRowBytes(EpdWidth) * rowCount
  }

  /** The scratch region (the file-local `bwConversionBuffer`): a heap region or
      none, and its size in bytes. */
  class ConversionBuffer {
    var data: array?<bv8>
    var size: nat

    /** No region means size 0; a held region is exactly `size` bytes long. */
    ghost predicate Valid()
      reads this
      ensures Valid() ==> size == (if data == null then 0 else data.Length)
    {
      && (data == null ==> size == 0)
      && (data != null ==> data.Length == size)
    }

    constructor ()
      ensures Valid() && data == null && size == 0
    {
      data := null;
      size := 0;
    }

    /** canFit: a region is held and `bytes` bytes can be written into it. */
    predicate CanFit(bytes: nat)
      requires Valid()
      reads this
      ensures CanFit(bytes) <==> data != null && bytes <= data.Length
    {
      data != null && size >= bytes
    }

    /** release: frees the held region, if any. On an empty buffer it changes
        nothing, so releasing twice is releasing once. */
    method Release()
      requires Valid()
      modifies this
      ensures Valid() && data == null && size == 0
      ensures forall m: nat {:trigger CanFit(m)} :: !CanFit(m)
      ensures old(data) == null ==> unchanged(this)
    {
      if data != null {
        data := null;
        size := 0;
      }
    }

    /** allocate: releases the held region, then asks the heap for `bytes`
        bytes; `heapHasRoom` says whether malloc returns a region. */
    method Allocate(bytes: nat, heapHasRoom: bool) returns (ok: bool)
      requires Valid()
      modifies this
      ensures Valid()
      ensures ok == heapHasRoom
      ensures ok ==> data != null && fresh(data) && size == bytes
      ensures !ok ==> data == null && size == 0
      ensures forall m: nat {:trigger CanFit(m)} :: CanFit(m) <==> ok && m <= bytes
    {
      Release();
      if heapHasRoom {
        data := new bv8[bytes];
      } else {
        data := null;
      }
      if data != null {
        size := bytes;
      }
      ok := data != null;
    }
  }

  // ---------------------------------------------------------------------------
  // Direct streaming
  // ---------------------------------------------------------------------------

  /** The driver's Rect_t. */
  datatype Rect = Rect(x: int, y: int, width: int, height: int)

  /** `inner` lies inside `outer`. */
  predicate Within(inner: Rect, outer: Rect) {
    && outer.x <= inner.x && inner.x + inner.width <= outer.x + outer.width
    && outer.y <= inner.y && inner.y + inner.height <= outer.y + outer.height
  }

  /** epd_full_screen(), as the model takes it: the whole panel, anchored at
      the origin. The driver itself is not part of this model. */
  function FullScreen(): (r: Rect)
    ensures r.x == 0 && r.y == 0 && r.width == EpdWidth && r.height == EpdHeight
    ensures forall y: nat, n: nat {:trigger Within(Rect(0, y, EpdWidth, n), r)} ::
      y + n <= EpdHeight ==> Within(Rect(0, y, EpdWidth, n), r)
  {
    Rect(0, 0, EpdWidth, EpdHeight)
  }

  /** Which buffer a draw call was handed: the packed scratch buffer, or the
      caller's grayscale rows as they came. */
  datatype DrawSource = Converted | Original

  /** One call of epd_draw_grayscale_image. */
  datatype DrawEvent = Draw(area: Rect, source: DrawSource)

  /** The effect of PixelPacker::convertGrayscaleToBW on its destination: the
      packed rows, passed in as `packed`, land at the start of the buffer. */
  method WritePacked(dst: array<bv8>, packed: seq<bv8>)
    requires |packed| <= dst.Length
    modifies dst
    ensures dst[..|packed|] == packed
    ensures dst[|packed|..] == old(dst[|packed|..])
  {
    forall i | 0 <= i < |packed| {
      dst[i] := packed[i];
    }
  }

  /** The display's streaming state: the `directStreamingPartialRefresh`
      flag, the conversion buffer, and the draw calls the panel driver has
      received so far. */
  class DirectStreaming {
    var partialRefresh: bool
    const bwConversionBuffer: ConversionBuffer
    ghost var draws: seq<DrawEvent>

    ghost predicate Valid()
      reads this, bwConversionBuffer
    {
      bwConversionBuffer.Valid()
    }

    /** The state at boot: full-refresh mode, no scratch region, nothing drawn. */
    constructor ()
      ensures Valid() && fresh(bwConversionBuffer)
      ensures !partialRefresh && draws == []
      ensures bwConversionBuffer.data == null && bwConversionBuffer.size == 0
    {
      partialRefresh := false;
      bwConversionBuffer := new ConversionBuffer();
      draws := [];
    }

    /** setToFullWindow: switches to full-refresh mode and returns the whole
        panel. */
    method SetToFullWindow() returns (area: Rect)
      modifies this`partialRefresh
      ensures !partialRefresh && area == FullScreen()
    {
      partialRefresh := false;
      area := FullScreen();
    }

    /** setToPartialWindow: switches to partial-refresh mode and returns the
        given window. */
    method SetToPartialWindow(x: int, y: int, width: int, height: int) returns (area: Rect)
      modifies this`partialRefresh
      ensures partialRefresh && area == Rect(x, y, width, height)
    {
      partialRefresh := true;
      area := Rect(x, y, width, height);
    }

    /** epd_draw_grayscale_image: the driver receives one more draw call. */
    method DrawGrayscaleImage(area: Rect, source: DrawSource)
      modifies this`draws
      ensures draws == old(draws) + [Draw(area, source)]
    {
      draws := draws + [Draw(area, source)];
    }

    /** initDirectStreaming: records the requested mode and nothing else;
        `maxRowCount` is not used and no scratch region is allocated. */
    method InitDirectStreaming(partial: bool, maxRowCount: uint16)
      modifies this`partialRefresh
      ensures partialRefresh == partial
    {
      partialRefresh := partial;
    }

    /** writeRowsDirect: hands one batch of rows to the panel driver. A missing
        batch or an empty one is ignored. In partial mode the batch goes out
        at its own window, packed to black-and-white when the scratch region
        is large enough and as the original grayscale rows otherwise; in full
        mode it goes out at the full-screen window. `packed` is what
        PixelPacker::convertGrayscaleToBW produces for the batch, and
        `colorData` is never read. */
    method WriteRowsDirect(yStart: uint16, rowCount: uint16, blackData: array?<bv8>,
                           colorData: array?<bv8>, packed: seq<bv8>)
      requires Valid()
      requires |packed| == ConvertedSize(rowCount as nat)
      modifies this`partialRefresh, this`draws, bwConversionBuffer.data
      ensures Valid()
      ensures partialRefresh == old(partialRefresh)
      ensures bwConversionBuffer.data == old(bwConversionBuffer.data)
      ensures bwConversionBuffer.size == old(bwConversionBuffer.size)
      ensures blackData == null || rowCount == 0 ==> draws == old(draws)
      ensures blackData != null && rowCount > 0 && old(partialRefresh) && old(bwConversionBuffer.CanFit(|packed|)) ==>
        && draws == old(draws) + [Draw(Rect(0, yStart as int, EpdWidth, rowCount as int), Converted)]
        && bwConversionBuffer.data[..|packed|] == packed
        && bwConversionBuffer.data[|packed|..] == old(bwConversionBuffer.data[|packed|..])
      ensures blackData != null && rowCount > 0 && old(partialRefresh) && !old(bwConversionBuffer.CanFit(|packed|)) ==>
        draws == old(draws) + [Draw(Rect(0, yStart as int, EpdWidth, rowCount as int), Original)]
      ensures blackData != null && rowCount > 0 && !old(partialRefresh) ==>
        draws == old(draws) + [Draw(FullScreen(), Original)]
      ensures !(blackData != null && rowCount > 0 && old(partialRefresh) && old(bwConversionBuffer.CanFit(|packed|))) ==>
        bwConversionBuffer.data == null || unchanged(bwConversionBuffer.data)
    {
      if blackData == null || rowCount == 0 {
        return;
      }
      if partialRefresh {
        var requiredSize := ConvertedSize(rowCount as nat);
        if bwConversionBuffer.CanFit(requiredSize) {
          WritePacked(bwConversionBuffer.data, packed);
          var area := SetToPartialWindow(0, yStart as int, EpdWidth, rowCount as int);
          DrawGrayscaleImage(area, Converted);
        } else {
          var area := SetToPartialWindow(0, yStart as int, EpdWidth, rowCount as int);
          DrawGrayscaleImage(area, Original);
        }
      } else {
        var area := SetToFullWindow();
        DrawGrayscaleImage(area, Original);
      }
    }

    /** finishDirectStreaming: both branches only log (the refresh calls are
        commented out), so it draws and refreshes nothing; it releases the
        scratch region. */
    method FinishDirectStreaming()
      requires Valid()
      modifies bwConversionBuffer
      ensures Valid()
      ensures bwConversionBuffer.data == null && bwConversionBuffer.size == 0
      ensures forall m: nat {:trigger bwConversionBuffer.CanFit(m)} :: !bwConversionBuffer.CanFit(m)
      ensures partialRefresh == old(partialRefresh) && draws == old(draws)
    {
      bwConversionBuffer.Release();
    }
  }

  // ---------------------------------------------------------------------------
  // Sessions from boot
  // ---------------------------------------------------------------------------

  /** A partial-refresh session right after boot. Nothing in the display code
      allocates the scratch region, so the batch is drawn from the original
      grayscale rows at its own window, and finishing adds no driver call. */
  method PartialSessionFromBoot(yStart: uint16, rowCount: uint16, blackData: array<bv8>, packed: seq<bv8>)
    returns (ghost events: seq<DrawEvent>, partialAfter: bool)
    requires rowCount > 0 && |packed| == ConvertedSize(rowCount as nat)
    ensures events == [Draw(Rect(0, yStart as int, EpdWidth, rowCount as int), Original)]
    ensures partialAfter
  {
    var display := new DirectStreaming();
    display.InitDirectStreaming(true, rowCount);
    display.WriteRowsDirect(yStart, rowCount, blackData, null, packed);
    display.FinishDirectStreaming();
    events := display.draws;
    partialAfter := display.partialRefresh;
  }

  /** Were the scratch region allocated with room for the batch, a partial
      session would draw the packed rows, and finishing would free the region. */
  method PartialSessionWithScratch(yStart: uint16, rowCount: uint16, blackData: array<bv8>, packed: seq<bv8>)
    returns (ghost events: seq<DrawEvent>, drawn: seq<bv8>, heldAfter: bool)
    requires rowCount > 0 && |packed| == ConvertedSize(rowCount as nat)
    ensures events == [Draw(Rect(0, yStart as int, EpdWidth, rowCount as int), Converted)]
    ensures drawn == packed
    ensures !heldAfter
  {
    var display := new DirectStreaming();
    var ok := display.bwConversionBuffer.Allocate(|packed|, true);
    display.InitDirectStreaming(true, rowCount);
    display.WriteRowsDirect(yStart, rowCount, blackData, null, packed);
    drawn := display.bwConversionBuffer.data[..|packed|];
    display.FinishDirectStreaming();
    events := display.draws;
    heldAfter := display.bwConversionBuffer.data != null;
  }

  // ---------------------------------------------------------------------------
  // Any sequence of streaming calls from boot
  // ---------------------------------------------------------------------------

  /** One call a renderer makes into the display's public streaming and
      window functions. A write carries whether its grayscale pointer is
      non-null and what the packer would produce for the batch. */
  datatype StreamingCall =
    | InitCall(partial: bool, maxRowCount: uint16)
    | WriteCall(yStart: uint16, rowCount: uint16, hasData: bool, packed: seq<bv8>)
    | FinishCall
    | SetFullWindowCall
    | SetPartialWindowCall(x: int, y: int, width: int, height: int)

  /** Every write in `calls` comes with packer output of the batch's size. */
  predicate PackedSizesMatch(calls: seq<StreamingCall>) {
    forall i :: 0 <= i < |calls| && calls[i].WriteCall? ==>
      |calls[i].packed| == ConvertedSize(calls[i].rowCount as nat)
  }

  /** A call that switches the display to partial refresh. */
  predicate RequestsPartial(c: StreamingCall) {
    (c.InitCall? && c.partial) || c.SetPartialWindowCall?
  }

  /** The mode after `calls`: the one set by the last initDirectStreaming,
      setToFullWindow or setToPartialWindow, or full refresh when none has run
      since boot. Partial refresh is on only if some call asked for it. */
  function ModeAfter(calls: seq<StreamingCall>): (partial: bool)
    decreases |calls|
    ensures partial ==> exists i :: 0 <= i < |calls| && RequestsPartial(calls[i])
  {
    if calls == [] then false
    else match calls[|calls| - 1]
      case InitCall(p, _) => p
      case SetFullWindowCall => false
      case SetPartialWindowCall(_, _, _, _) => true
      case _ => ModeAfter(calls[..|calls| - 1])
  }

  /** The number of writes in `calls` that hand over a non-empty batch. */
  function NonEmptyWrites(calls: seq<StreamingCall>): (n: nat)
    decreases |calls|
    ensures n <= |calls|
  {
    if calls == [] then 0
    else
      NonEmptyWrites(calls[..|calls| - 1]) +
        match calls[|calls| - 1]
        case WriteCall(_, n, hasData, _) => if hasData && n > 0 then 1 else 0
        case _ => 0
  }

  /** The draw calls the panel driver receives when `calls` run from boot, one
      per write of a non-empty batch, at the batch's window in partial mode and
      at the full screen in full mode. */
  function SessionDraws(calls: seq<StreamingCall>): (events: seq<DrawEvent>)
    decreases |calls|
    ensures |events| == NonEmptyWrites(calls)
  {
    if calls == [] then []
    else
      var earlier := calls[..|calls| - 1];
      SessionDraws(earlier) +
        match calls[|calls| - 1]
        case WriteCall(y, n, hasData, _) =>
          if hasData && n > 0 then
            [Draw(if ModeAfter(earlier) then Rect(0, y as int, EpdWidth, n as int) else FullScreen(), Original)]
          else []
        case _ => []
  }

  /** From boot, no draw ever uses the packed scratch buffer. */
  lemma {:induction false} SessionDrawsNeverConverted(calls: seq<StreamingCall>)
    ensures forall i :: 0 <= i < |SessionDraws(calls)| ==> SessionDraws(calls)[i].source == Original
  {
    if calls != [] {
      SessionDrawsNeverConverted(calls[..|calls| - 1]);
    }
  }

  /** writeRowsDirect and finishDirectStreaming never change the mode: after an
      init followed only by writes and finishes, the mode is the one the init
      asked for. */
  lemma {:induction false} ModeAfterLastInit(earlier: seq<StreamingCall>, p: bool, maxRows: uint16,
                                            rest: seq<StreamingCall>)
    requires forall i :: 0 <= i < |rest| ==> rest[i].WriteCall? || rest[i].FinishCall?
    ensures ModeAfter(earlier + [InitCall(p, maxRows)] + rest) == p
    decreases |rest|
  {
    var calls := earlier + [InitCall(p, maxRows)] + rest;
    if rest != [] {
      var shorter := rest[..|rest| - 1];
      assert calls[..|calls| - 1] == earlier + [InitCall(p, maxRows)] + shorter;
      ModeAfterLastInit(earlier, p, maxRows, shorter);
    }
  }

  /** Runs `calls` against the display state as it is at boot and returns the
      driver's draw log and the final mode. */
  method StreamFromBoot(calls: seq<StreamingCall>, blackData: array<bv8>)
    returns (ghost events: seq<DrawEvent>, partialAfter: bool)
    requires PackedSizesMatch(calls)
    ensures events == SessionDraws(calls)
    ensures forall i :: 0 <= i < |events| ==> events[i].source == Original
    ensures partialAfter == ModeAfter(calls)
  {
    var display := new DirectStreaming();
    var k := 0;
    while k < |calls|
      invariant 0 <= k <= |calls|
      invariant display.Valid() && fresh(display.bwConversionBuffer)
      invariant display.bwConversionBuffer.data == null
      invariant display.draws == SessionDraws(calls[..k])
      invariant display.partialRefresh == ModeAfter(calls[..k])
    {
      assert calls[..k + 1][..k] == calls[..k];
      match calls[k] {
        case InitCall(p, maxRows) =>
          display.InitDirectStreaming(p, maxRows);
        case WriteCall(y, n, hasData, packed) =>
          display.WriteRowsDirect(y, n, if hasData then blackData else null, null, packed);
        case FinishCall =>
          display.FinishDirectStreaming();
        case SetFullWindowCall =>
          var _ := display.SetToFullWindow();
        case SetPartialWindowCall(x, y, width, height) =>
          var _ := display.SetToPartialWindow(x, y, width, height);
      }
      k := k + 1;
    }
    assert calls[..k] == calls;
    events := display.draws;
    partialAfter := display.partialRefresh;
    SessionDrawsNeverConverted(calls);
  }
}
