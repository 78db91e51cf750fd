/** The board layer (src/board.h, src/board.cpp): the page-buffer budget every
    paged renderer sizes itself against, and the classification of the chip's
    reset cause into the firmware's own ResetReason enumeration and into a short
    name for reporting. */
module Board {

  /** BOARD_MAX_PAGE_BUFFER_SIZE: the byte budget of one page buffer. */
  const MaxPageBufferSize: nat := 48 * 1024

  /** The firmware's reset-cause enumeration (an `enum class` over uint8_t). */
  datatype ResetReason =
    | Unknown
    | PowerOn
    | Ext
    | Sw
    | Panic
    | IntWdt
    | TaskWdt
    | Wdt
    | DeepSleep
    | Brownout
    | Sdio

  /** The value each enumerator is declared with. */
  function EnumValue(r: ResetReason): (v: nat)
    ensures v <= 10
    ensures v == 0 <==> r == Unknown
  {
    match r
    case Unknown => 0
    case PowerOn => 1
    case Ext => 2
    case Sw => 3
    case Panic => 4
    case IntWdt => 5
    case TaskWdt => 6
    case Wdt => 7
    case DeepSleep => 8
    case Brownout => 9
    case Sdio => 10
  }

  /** Distinct enumerators carry distinct values, so the byte stored for a
      reason identifies it. */
  lemma EnumValueInjective(a: ResetReason, b: ResetReason)
    ensures EnumValue(a) == EnumValue(b) ==> a == b
  {
    match a
    case Unknown =>
    case PowerOn =>
    case Ext =>
    case Sw =>
    case Panic =>
    case IntWdt =>
    case TaskWdt =>
    case Wdt =>
    case DeepSleep =>
    case Brownout =>
    case Sdio =>
  }

  /** The value the ESP runtime reports as the cause of the last reset: the ten
      codes the firmware tells apart, and `RstOther`, which stands for any
      value outside those ten (ESP_RST_UNKNOWN and whatever further causes a
      chip reports). */
  datatype EspResetCode =
    | RstPowerOn
    | RstExt
    | RstSw
    | RstPanic
    | RstIntWdt
    | RstTaskWdt
    | RstWdt
    | RstDeepSleep
    | RstBrownout
    | RstSdio
    | RstOther

  /** The ten codes that the classification names explicitly. */
  predicate Listed(c: EspResetCode) {
    !c.RstOther?
  }

  /** getResetReason, with the runtime's reset code passed in: each listed code
      becomes the reason of the same name, every other code UNKNOWN. */
  function GetResetReason(reason: EspResetCode): (r: ResetReason)
    ensures r == Unknown <==> !Listed(reason)
    ensures Listed(reason) ==> 1 <= EnumValue(r) <= 10
  {
    match reason
    case RstPowerOn => PowerOn
    case RstExt => Ext
    case RstSw => Sw
    case RstPanic => Panic
    case RstIntWdt => IntWdt
    case RstTaskWdt => TaskWdt
    case RstWdt => Wdt
    case RstDeepSleep => DeepSleep
    case RstBrownout => Brownout
    case RstSdio => Sdio
    case RstOther => Unknown
  }

  /** The runtime code a known reason comes from: the inverse of
      GetResetReason on the listed codes. */
  function ListedCode(r: ResetReason): (c: EspResetCode)
    requires r != Unknown
    ensures Listed(c) && GetResetReason(c) == r
  {
    match r
    case PowerOn => RstPowerOn
    case Ext => RstExt
    case Sw => RstSw
    case Panic => RstPanic
    case IntWdt => RstIntWdt
    case TaskWdt => RstTaskWdt
    case Wdt => RstWdt
    case DeepSleep => RstDeepSleep
    case Brownout => RstBrownout
    case Sdio => RstSdio
  }

  /** ListedCode undoes GetResetReason on every listed code. */
  lemma ListedCodeRecoversCode(c: EspResetCode)
    requires Listed(c)
    ensures ListedCode(GetResetReason(c)) == c
  {
    match c
    case RstPowerOn =>
    case RstExt =>
    case RstSw =>
    case RstPanic =>
    case RstIntWdt =>
    case RstTaskWdt =>
    case RstWdt =>
    case RstDeepSleep =>
    case RstBrownout =>
    case RstSdio =>
  }

  /** No two listed codes are classified as the same reason. */
  lemma GetResetReasonInjective(a: EspResetCode, b: EspResetCode)
    requires Listed(a) && Listed(b)
    ensures GetResetReason(a) == GetResetReason(b) <==> a == b
  {
    ListedCodeRecoversCode(a);
    ListedCodeRecoversCode(b);
  }

  /** The name each reason is reported under. */
  function ReasonName(r: ResetReason): (name: string)
    ensures name == "unknown" <==> r == Unknown
  {
    match r
    case Unknown => "unknown"
    case PowerOn => "poweron"
    case Ext => "external"
    case Sw => "software"
    case Panic => "panic"
    case IntWdt => "int_watchdog"
    case TaskWdt => "task_watchdog"
    case Wdt => "watchdog"
    case DeepSleep => "deepsleep"
    case Brownout => "brownout"
    case Sdio => "sdio"
  }

  /** The eleven names are pairwise distinct: a name identifies its reason. */
  lemma ReasonNameInjective(a: ResetReason, b: ResetReason)
    ensures ReasonName(a) == ReasonName(b) <==> a == b
  {
    if ReasonName(a) == ReasonName(b) {
      // Names of distinct reasons differ in length or in one of their first
      // two characters.
      assert |ReasonName(a)| == |ReasonName(b)|;
      assert ReasonName(a)[0] == ReasonName(b)[0];
      assert ReasonName(a)[1] == ReasonName(b)[1];
    }
  }

  /** getResetReasonString, with the runtime's reset code passed in. It is a
      switch of its own over the runtime code; its contract states that it
      names exactly the reason getResetReason picks for the same code. */
  function GetResetReasonString(reason: EspResetCode): (name: string)
    ensures name == ReasonName(GetResetReason(reason))
    ensures name == "unknown" <==> !Listed(reason)
  {
    match reason
    case RstPowerOn => "poweron"
    case RstExt => "external"
    case RstSw => "software"
    case RstPanic => "panic"
    case RstIntWdt => "int_watchdog"
    case RstTaskWdt => "task_watchdog"
    case RstWdt => "watchdog"
    case RstDeepSleep => "deepsleep"
    case RstBrownout => "brownout"
    case RstSdio => "sdio"
    case RstOther => "unknown"
  }

  /** Two reset codes get the same name exactly when they get the same
      reason, so the two mappings carry the same information. */
  lemma ResetReasonStringAgrees(a: EspResetCode, b: EspResetCode)
    ensures GetResetReasonString(a) == GetResetReasonString(b)
        <==> GetResetReason(a) == GetResetReason(b)
  {
    ReasonNameInjective(GetResetReason(a), GetResetReason(b));
  }
}
