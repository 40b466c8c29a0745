/** The system-LED condition flags: single bits of a FreeRTOS event-group word.
    FreeRTOS keeps the top 8 bits of an event word for itself, so only the low
    24 bits carry conditions. */
module Flags {

  const ERROR: bv32           := 0x001  // BIT0
  const WARNING: bv32         := 0x002  // BIT1
  const CLOCK_SET: bv32       := 0x004  // BIT2, positive sense: time is synchronised
  const WIFI_CONNECTED: bv32  := 0x008  // BIT3, positive sense: link is up
  const INET_AVAILABLED: bv32 := 0x010  // BIT4, positive sense: internet reachable
  const MQTT_ERROR: bv32      := 0x020  // BIT5
  const PUBLISH_ERROR: bv32   := 0x040  // BIT6
  const TELEGRAM_ERROR: bv32  := 0x080  // BIT7
  const SENSOR_ERROR: bv32    := 0x100  // BIT8
  const OTA: bv32             := 0x200  // BIT9, firmware update in progress

  /** The bits of an event word that belong to the application. */
  const LOW24: bv32 := 0x00FF_FFFF

  /** All ten flags, in bit order: AllFlags[i] is BIT<i>. */
  const AllFlags: seq<bv32> := [ERROR, WARNING, CLOCK_SET, WIFI_CONNECTED, INET_AVAILABLED,
                                MQTT_ERROR, PUBLISH_ERROR, TELEGRAM_ERROR, SENSOR_ERROR, OTA]

  /** An event word (or mask) that uses only the application's 24 bits. */
  predicate Fits24(w: bv32) {
    w & !LOW24 == 0
  }

  /** Whether every bit of `flag` is set in `w`. */
  predicate Has(w: bv32, flag: bv32) {
    w & flag == flag
  }

  /** Each flag is the single bit BIT<i>, lies inside the 24 application bits,
      and no two flags share a bit. */
  lemma {:induction false} FlagsAreDistinctBits()
    ensures |AllFlags| == 10
    ensures forall i :: 0 <= i < 10 ==> AllFlags[i] == 1 << i as bv5 && Fits24(AllFlags[i])
    ensures forall i, j :: 0 <= i < 10 && 0 <= j < 10 && i != j ==> AllFlags[i] & AllFlags[j] == 0
  {
  }

  /** A word whose 24 application bits are cleared has every flag clear. */
  lemma ClearedWordHasNoFlag(w: bv32, i: int)
    requires w & LOW24 == 0
    requires 0 <= i < |AllFlags|
    ensures !Has(w, AllFlags[i]) && w & AllFlags[i] == 0
  {
  }
}
