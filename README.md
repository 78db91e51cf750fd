# Direct streaming and reset classification of the zivyobraz e-paper firmware

This project models, in Dafny, two parts of the firmware for a 960 x 540
grayscale e-paper board:

- the direct-streaming path of the display driver (`src/display.cpp`): the
  page-height computation `CALC_PAGE_HEIGHT`, the black-and-white conversion
  buffer `bwConversionBuffer` (`allocate`, `release`, `canFit`), the mode flag
  `directStreamingPartialRefresh` with the `setToFullWindow` and
  `setToPartialWindow` helpers that set it, and the three streaming entry points
  `initDirectStreaming`, `writeRowsDirect` and `finishDirectStreaming`;
- the reset-cause classification of the board layer (`src/board.cpp`):
  `getResetReason` and `getResetReasonString`.

`board.dfy` (module `Board`) holds the page-buffer budget
`BOARD_MAX_PAGE_BUFFER_SIZE`, the `ResetReason` enumeration and the two
classification functions. They take the runtime's reset code as a parameter,
since `esp_reset_reason()` is a call into the ESP runtime. The code is a
datatype: the ten codes the firmware lists, plus `RstOther` for every other
code. The string mapping keeps its own switch over the code. Its contract ties
it to `ReasonName`, the reason-to-name table, applied to the reason
`GetResetReason` picks.

`display.dfy` (module `Display`) holds the rest:

- `CalcPageHeight` is a pure function. A lemma proves it is the largest row
  count, up to the height, whose page fits the budget.
- `ConversionBuffer` is a class with the struct's two fields. `data` is a
  nullable byte array and `size` its length. The outcome of `malloc` is a
  boolean parameter of `Allocate`.
- `DirectStreaming` is a class holding the display's streaming globals: the
  mode flag, the conversion buffer, and `draws`. `draws` is a ghost log of
  `epd_draw_grayscale_image` calls. Each entry records the window and which
  buffer was drawn: the packed scratch buffer (`Converted`) or the caller's rows
  (`Original`).

The model follows the code as written:

- Nothing in `display.cpp` calls `allocate`. The buffer is file-local, and
  `initDirectStreaming` ignores `maxRowCount`. So from boot the buffer never
  holds a region, and every partial-mode batch is drawn from the original
  grayscale rows. `StreamFromBoot` runs any sequence of calls to the streaming
  entry points and the two window helpers from boot, and proves the draw log
  equals `SessionDraws(calls)`. `SessionDrawsNeverConverted` shows that no
  entry of that log uses the packed buffer. `PartialSessionFromBoot` is one such session.
  `PartialSessionWithScratch` shows the converted path, which is taken only
  once a region has been allocated.
- `finishDirectStreaming` only logs in both branches, because its refresh calls
  are commented out. It then releases the buffer. It adds nothing to the driver
  log and does not change the mode flag.
- `writeRowsDirect` never reads `colorData`.
- The full-screen window returned by `epd_full_screen()` is taken to be the
  whole 960 x 540 panel at the origin (`FullScreen`), since the driver is not
  part of this model.
- The code has no session state besides the flag. A write before any
  `initDirectStreaming` uses the boot value, full mode. A finish without an init
  is just a release.
- `CALC_PAGE_HEIGHT` budgets in bits: a page fits when
  `rows * width * bpp <= BOARD_MAX_PAGE_BUFFER_SIZE * 8`. The model uses that
  inequality. It does not use a row stride rounded up to whole bytes.

## Model

| member | source | states |
|---|---|---|
| `Board.EnumValue` | src/board.h:12-25 | each reason's declared value is at most 10, and it is 0 exactly for UNKNOWN |
| `Board.EnumValueInjective` | src/board.h:12-25 | distinct reasons have distinct declared values |
| `Board.GetResetReason` | src/board.cpp:97-126 | the result is UNKNOWN exactly for codes outside the ten listed ones; listed codes get a reason valued 1..10 |
| `Board.ListedCode` | src/board.cpp:101-122 | every reason other than UNKNOWN comes from a listed code that getResetReason maps back to it |
| `Board.ListedCodeRecoversCode` | src/board.cpp:101-122 | on listed codes, ListedCode undoes getResetReason |
| `Board.GetResetReasonInjective` | src/board.cpp:101-122 | two listed codes get the same reason if and only if they are the same code |
| `Board.ReasonName` | src/board.cpp:133-154 | the name is "unknown" exactly for UNKNOWN |
| `Board.ReasonNameInjective` | src/board.cpp:133-154 | the eleven names are pairwise distinct: two reasons share a name if and only if they are equal |
| `Board.GetResetReasonString` | src/board.cpp:128-156 | the string is the name of the reason getResetReason gives the same code, and it is "unknown" exactly for unlisted codes |
| `Board.ResetReasonStringAgrees` | src/board.cpp:97-156 | two codes get the same string if and only if they get the same reason |
| `Display.CalcPageHeight` | src/display.cpp:14-17 | the page height never exceeds the display height |
| `Display.CalcPageHeightIsLargestFit` | src/display.cpp:14-17 | the page fits the 48 KiB budget, and no taller page up to the height fits |
| `Display.Epd47PageHeight` | src/display.cpp:14-17 | on the 960 x 540 panel at 4 bits per pixel the page height is 102 rows |
| `Display.PackedRowBytes` | src/display.cpp:286 | (W + 7) / 8 is the fewest whole bytes holding W one-bit pixels |
| `Display.ConvertedSize` | src/display.cpp:286 | the size writeRowsDirect asks canFit for is exactly one bit per pixel of the batch, since the 960-pixel width needs no row padding |
| `Display.ConversionBuffer.Valid` | src/display.cpp:49-74 | the struct's invariant: `size` is the length of the held region, and 0 when there is none |
| `Display.ConversionBuffer.constructor` | src/display.cpp:49-52 | the buffer starts with no region and size 0 |
| `Display.ConversionBuffer.CanFit` | src/display.cpp:73 | canFit holds exactly when a region is held and the requested bytes fit in it |
| `Display.ConversionBuffer.Release` | src/display.cpp:63-71 | afterwards there is no region, size is 0 and canFit is false for every size, including 0; on an empty buffer nothing changes, so a second release is a no-op |
| `Display.ConversionBuffer.Allocate` | src/display.cpp:54-61 | the old region is released first; on success a fresh region of the requested size is held and canFit holds for exactly the sizes up to it; on failure the buffer is empty and canFit is false for every size |
| `Display.WritePacked` | src/display.cpp:292 | the packer's output lands at the start of the scratch region, and the rest of the region is unchanged |
| `Display.FullScreen` | src/display.cpp:202 | the window epd_full_screen() returns is assumed to be (0, 0, 960, 540), and every full-width batch window inside the panel's height lies within it |
| `Display.DirectStreaming.constructor` | src/display.cpp:74-77 | at boot the mode is full refresh, no scratch region is held and nothing has been drawn |
| `Display.DirectStreaming.SetToFullWindow` | src/display.cpp:199-203 | the mode becomes full refresh and the full-screen window is returned; nothing else changes |
| `Display.DirectStreaming.SetToPartialWindow` | src/display.cpp:205-210 | the mode becomes partial refresh and the given window is returned; nothing else changes |
| `Display.DirectStreaming.DrawGrayscaleImage` | src/display.cpp:293-306 | each driver draw call appends one event with its window and buffer |
| `Display.DirectStreaming.InitDirectStreaming` | src/display.cpp:255-276 | the mode flag becomes the requested mode; the buffer and the draw log are untouched and maxRowCount is ignored |
| `Display.DirectStreaming.WriteRowsDirect` | src/display.cpp:278-308 | no event for missing or empty batches; otherwise exactly one event: packed rows at (0, yStart, W, rowCount) in partial mode when canFit holds, the original rows at that window when it does not, the original rows at the full screen in full mode; the mode flag and the buffer's region and size never change |
| `Display.DirectStreaming.FinishDirectStreaming` | src/display.cpp:310-324 | the buffer is released in both modes, canFit is false for every size, and the mode flag and draw log are unchanged |
| `Display.PartialSessionFromBoot` | src/display.cpp:255-324 | a partial session after boot draws its batch from the original rows at the batch's window, never the packed rows |
| `Display.NonEmptyWrites` | src/display.cpp:280-281 | counts the writes that pass the guard at the top of writeRowsDirect (grayscale data present and rowCount > 0); there are never more of them than calls |
| `Display.ModeAfter` | src/display.cpp:199-276 | the mode flag after a call sequence is that of the last init or window helper, full refresh at boot; it is partial only if some call requested partial refresh |
| `Display.SessionDraws` | src/display.cpp:278-308 | a call sequence from boot makes exactly one draw call per write of a non-empty batch, and none for anything else |
| `Display.SessionDrawsNeverConverted` | src/display.cpp:283-300 | no entry of the reference draw log uses the packed buffer; together with StreamFromBoot, no draw call made from boot ever receives the scratch buffer, since nothing allocates it |
| `Display.ModeAfterLastInit` | src/display.cpp:255-324 | writeRowsDirect and finishDirectStreaming never change the mode: after an init followed only by writes and finishes, the mode is the one the init requested |
| `Display.StreamFromBoot` | src/display.cpp:199-324 | running any sequence of init, write, finish, setToFullWindow and setToPartialWindow calls from boot produces exactly the reference draw log, none of whose draws uses the packed buffer, and leaves the mode set by the last init or window helper, or full refresh if there was none |
| `Display.PartialSessionWithScratch` | src/display.cpp:283-294 | with a large enough region allocated, a partial session draws the packed rows, and finishing frees the region |

## Left out

- The ESP runtime's `esp_reset_reason()` is a parameter of the two classification functions.
- `PixelPacker::convertGrayscaleToBW`: its source, `pixel_packer.h`, is not part of this model. Its output is the parameter `packed` of `WriteRowsDirect`. The model assumes only that it fills the first `((W + 7) / 8) * rowCount` bytes of the scratch region and writes nothing past them.
- `malloc`/`free`: allocation success is a parameter, and freeing is dropping the reference. The model does not say what an allocated region holds before it is written.
- Panel-driver I/O (`epd_draw_grayscale_image`, `epd_init`, `epd_clear`, power on and off): only the draw calls are modelled, as entries of the draw log. The pixel bytes a draw sends are not recorded. `EPD_WIDTH`/`EPD_HEIGHT` come from the panel header, which is not part of this model; the model uses the panel's 960 x 540.
- `supportsDirectStreaming`, `supportsPartialRefresh` (both always return true), `setToFirstPage` (does nothing), `setToNextPage` (always returns true), and `getResolutionX`/`getResolutionY`, `getWidth`/`getHeight` (they return the panel constants): they hold no logic beyond a constant.
- `init`, `powerOnAndInit`, `clear`, `refreshDisplay`, `drawPixel`: framebuffer allocation and fill, driver calls and delays.
- Text layout (`setTextPos`, `centeredText`), `drawQrCode`, `showNoWiFiError`, `showWiFiError`: wrappers over the font and QR-code libraries and compositions of drawing calls.
- Light sleep (`busyCallbackLightSleep`, `enableLightSleepDuringRefresh`), `enterDeepSleepMode`, `setupHW`, `setEPaperPowerOn`: power management and hardware side effects.
- `getBatteryVoltage`, `getCPUTemperature`: floating point and ADC reads. `checkButtonPressDuration`: wall-clock timing and GPIO polling.
- Logging throughout.
- `size_t` width: sizes are unbounded naturals. The largest size the code computes is 120 * 65535 bytes, which does not overflow a 32-bit `size_t`.
