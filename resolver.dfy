/** The state-to-pattern resolver of the system LED (`ledSysBlinkBits`):
    the default pattern table and the fixed-priority ladder over the
    condition word, plus the OTA pre-pattern sent outside the ladder. */
module Resolver {
  import opened Flags

  /** The `uint16_t` arguments of the LED task's commands. */
  newtype u16 = x: int | 0 <= x < 0x1_0000

  /** A blink pattern: `quantity` flashes of `duration` ms, then a pause of `interval` ms. */
  datatype Pattern = Pattern(quantity: u16, duration: u16, interval: u16)

  /** The ten tiers of the else-chain, from highest to lowest priority. */
  datatype Tier =
    | Error        // SYSLED_ERROR set
    | Warning      // SYSLED_WARNING set
    | WifiInit     // SYSLED_WIFI_CONNECTED clear
    | SensorError  // SYSLED_SENSOR_ERROR set
    | PingError    // SYSLED_INET_AVAILABLED clear
    | SntpError    // SYSLED_CLOCK_SET clear
    | MqttError    // SYSLED_MQTT_ERROR set
    | PubError     // SYSLED_PUBLISH_ERROR set
    | TgError      // SYSLED_TELEGRAM_ERROR set
    | Normal       // nothing above holds

  /** The OTA pattern, sent before the ladder's pattern while an update runs. */
  const OtaPattern: Pattern := Pattern(1, 100, 100)

  /** The default pattern of each tier (the `CONFIG_LEDSYS_*` defaults). */
  function PatternOf(t: Tier): Pattern {
    match t
    case Error       => Pattern(1, 1000, 1000)
    case Warning     => Pattern(1, 1000, 1000)
    case WifiInit    => Pattern(1, 250, 250)
    case SensorError => Pattern(7, 100, 5000)
    case PingError   => Pattern(2, 100, 500)
    case SntpError   => Pattern(1, 500, 500)
    case MqttError   => Pattern(3, 250, 1000)
    case PubError    => Pattern(5, 250, 1000)
    case TgError     => Pattern(4, 250, 1000)
    case Normal      => Pattern(1, 75, 5000)
  }

  /** Position of a tier in the else-chain; 0 is checked first. */
  function Rank(t: Tier): nat {
    match t
    case Error => 0
    case Warning => 1
    case WifiInit => 2
    case SensorError => 3
    case PingError => 4
    case SntpError => 5
    case MqttError => 6
    case PubError => 7
    case TgError => 8
    case Normal => 9
  }

  /** The condition under which a tier asks to be shown, taken on its own. */
  predicate Demands(t: Tier, w: bv32) {
    match t
    case Error       => w & ERROR != 0
    case Warning     => w & WARNING != 0
    case WifiInit    => w & WIFI_CONNECTED == 0
    case SensorError => w & SENSOR_ERROR != 0
    case PingError   => w & INET_AVAILABLED == 0
    case SntpError   => w & CLOCK_SET == 0
    case MqttError   => w & MQTT_ERROR != 0
    case PubError    => w & PUBLISH_ERROR != 0
    case TgError     => w & TELEGRAM_ERROR != 0
    case Normal      => true
  }

  /** The else-chain of `ledSysBlinkBits`: the tier whose pattern is sent. */
  function Ladder(w: bv32): (t: Tier)
    ensures Demands(t, w)
  {
    if w & ERROR != 0 then Error
    else if w & WARNING != 0 then Warning
    else if w & WIFI_CONNECTED == 0 then WifiInit
    else if w & SENSOR_ERROR != 0 then SensorError
    else if w & INET_AVAILABLED == 0 then PingError
    else if w & CLOCK_SET == 0 then SntpError
    else if w & MQTT_ERROR != 0 then MqttError
    else if w & PUBLISH_ERROR != 0 then PubError
    else if w & TELEGRAM_ERROR != 0 then TgError
    else Normal
  }

  /** The patterns `ledSysBlinkBits` sends for the word `w`, in order: the OTA
      pattern when the OTA flag is set, then always exactly one ladder pattern. */
  function Resolve(w: bv32): (ps: seq<Pattern>)
    ensures |ps| == if w & OTA != 0 then 2 else 1
    ensures ps[|ps| - 1] == PatternOf(Ladder(w))
    ensures w & OTA != 0 ==> ps[0] == OtaPattern
  {
    (if w & OTA != 0 then [OtaPattern] else []) + [PatternOf(Ladder(w))]
  }

  /** Ranks are a total order on tiers: distinct tiers have distinct ranks. */
  lemma RankInjective(t: Tier, u: Tier)
    requires Rank(t) == Rank(u)
    ensures t == u
  {
  }

  /** Every tier ranked above the chosen one does not demand to be shown. */
  lemma {:induction false} LadderSkipsHigher(w: bv32, u: Tier)
    requires Rank(u) < Rank(Ladder(w))
    ensures !Demands(u, w)
  {
  }

  /** The ladder picks the first demanding tier in rank order, and only it:
      `Ladder(w) == t` exactly when `t` demands and no higher tier does. */
  lemma {:induction false} LadderIsFirstMatch(w: bv32, t: Tier)
    ensures Ladder(w) == t <==> Demands(t, w) && forall u :: Rank(u) < Rank(t) ==> !Demands(u, w)
  {
    if Ladder(w) == t {
      forall u | Rank(u) < Rank(t) ensures !Demands(u, w) {
        LadderSkipsHigher(w, u);
      }
    } else if Demands(t, w) && forall u :: Rank(u) < Rank(t) ==> !Demands(u, w) {
      var l := Ladder(w);
      if Rank(t) < Rank(l) {
        LadderSkipsHigher(w, t);
      } else if Rank(t) == Rank(l) {
        RankInjective(l, t);
      }
    }
  }

  /** The ladder as an ordered table: the tiers from highest to lowest priority. */
  const Priority: seq<Tier> :=
    [Error, Warning, WifiInit, SensorError, PingError, SntpError, MqttError, PubError, TgError, Normal]

  /** The table and the ranks agree: each tier sits at the index of its rank. */
  lemma PriorityIsRankOrder(t: Tier)
    ensures |Priority| == 10
    ensures Rank(t) < |Priority| && Priority[Rank(t)] == t
  {
  }

  /** Top-to-bottom evaluation of a table: the index of the first tier that
      demands to be shown, or `|ts|` when none does. */
  function FirstDemanding(ts: seq<Tier>, w: bv32): (i: nat)
    ensures i <= |ts|
    ensures forall j :: 0 <= j < i ==> !Demands(ts[j], w)
    ensures i < |ts| ==> Demands(ts[i], w)
  {
    if ts == [] then 0
    else if Demands(ts[0], w) then 0
    else 1 + FirstDemanding(ts[1..], w)
  }

  /** The else-chain and the top-to-bottom evaluation of the priority table
      choose the same tier, and the table never runs off its end. */
  lemma {:induction false} LadderIsTableLookup(w: bv32)
    ensures FirstDemanding(Priority, w) < |Priority|
    ensures Priority[FirstDemanding(Priority, w)] == Ladder(w)
  {
    var i := FirstDemanding(Priority, w);
    PriorityIsRankOrder(Normal);
    assert Demands(Priority[9], w);
    var t := Priority[i];
    forall u | Rank(u) < Rank(t) ensures !Demands(u, w) {
      PriorityIsRankOrder(u);
      PriorityIsRankOrder(t);
    }
    PriorityIsRankOrder(t);
    LadderIsFirstMatch(w, t);
  }

  /** When every tier that asks to be shown for `w` also asks for `w2`, the
      tier shown for `w2` is at least as high in priority as the one for `w`. */
  lemma {:induction false} WorseNeverLowersSeverity(w: bv32, w2: bv32)
    requires forall t :: Demands(t, w) ==> Demands(t, w2)
    ensures Rank(Ladder(w2)) <= Rank(Ladder(w))
  {
    var t := Ladder(w);
    if Rank(t) < Rank(Ladder(w2)) {
      LadderSkipsHigher(w2, t);
    }
  }

  /** The six fault flags, whose presence asks for a pattern. */
  predicate IsFault(f: bv32) {
    f == ERROR || f == WARNING || f == SENSOR_ERROR || f == MQTT_ERROR || f == PUBLISH_ERROR || f == TELEGRAM_ERROR
  }

  /** The three positive-sense flags, whose absence asks for a pattern. */
  predicate IsHealth(f: bv32) {
    f == WIFI_CONNECTED || f == INET_AVAILABLED || f == CLOCK_SET
  }

  /** Raising a fault flag never shows a lower-priority pattern than before. */
  lemma {:induction false} FaultNeverLowersSeverity(w: bv32, f: bv32)
    requires IsFault(f)
    ensures Rank(Ladder(w | f)) <= Rank(Ladder(w))
  {
    forall t | Demands(t, w) ensures Demands(t, w | f) {
      DemandsUnderFault(t, w, f);
    }
    WorseNeverLowersSeverity(w, w | f);
  }

  /** Losing a health flag never shows a lower-priority pattern than before. */
  lemma {:induction false} HealthLossNeverLowersSeverity(w: bv32, f: bv32)
    requires IsHealth(f)
    ensures Rank(Ladder(w & !f)) <= Rank(Ladder(w))
  {
    forall t | Demands(t, w) ensures Demands(t, w & !f) {
      DemandsUnderHealthLoss(t, w, f);
    }
    WorseNeverLowersSeverity(w, w & !f);
  }

  /** A fault flag only adds to what the word asks for. */
  lemma DemandsUnderFault(t: Tier, w: bv32, f: bv32)
    requires IsFault(f) && Demands(t, w)
    ensures Demands(t, w | f)
  {
  }

  /** Losing a health flag only adds to what the word asks for. */
  lemma DemandsUnderHealthLoss(t: Tier, w: bv32, f: bv32)
    requires IsHealth(f) && Demands(t, w)
    ensures Demands(t, w & !f)
  {
  }

  /** The OTA flag never changes the ladder's choice. */
  lemma LadderIgnoresOta(w: bv32)
    ensures Ladder(w | OTA) == Ladder(w & !OTA) == Ladder(w)
  {
  }

  /** The nominal pattern belongs to the Normal tier alone, and differs from the OTA pattern. */
  lemma NormalPatternIsUnique(t: Tier)
    ensures PatternOf(t) == PatternOf(Normal) <==> t == Normal
    ensures OtaPattern != PatternOf(Normal)
  {
  }

  /** The word describes a healthy device: the three positive-sense flags set
      and the six error flags clear. */
  predicate AllNominal(w: bv32) {
    Has(w, WIFI_CONNECTED) && Has(w, INET_AVAILABLED) && Has(w, CLOCK_SET) &&
    w & (ERROR | WARNING | SENSOR_ERROR | MQTT_ERROR | PUBLISH_ERROR | TELEGRAM_ERROR) == 0
  }

  /** The nominal pattern 1/75/5000 is sent exactly for healthy words. */
  lemma {:induction false} NominalSentIff(w: bv32)
    ensures PatternOf(Normal) in Resolve(w) <==> AllNominal(w)
  {
    var ps := Resolve(w);
    NormalPatternIsUnique(Ladder(w));
    if w & OTA != 0 {
      assert ps == [OtaPattern, PatternOf(Ladder(w))];
    } else {
      assert ps == [PatternOf(Ladder(w))];
    }
  }

  /** The all-zero word, as left by initialisation, shows the Wi-Fi-init
      pattern 1/250/250, not the nominal one. */
  lemma ZeroWordIsWifiInit()
    ensures Ladder(0) == WifiInit
    ensures Resolve(0) == [Pattern(1, 250, 250)]
  {
  }

  /** Error outranks warning: with both set the error pattern is shown. */
  lemma ErrorOutranksWarning(w: bv32)
    requires Has(w, ERROR | WARNING)
    ensures Ladder(w) == Error
    ensures Resolve(w)[|Resolve(w)| - 1] == Pattern(1, 1000, 1000)
  {
  }

  /** While an update runs, the OTA pattern is sent and the ladder still sends
      its own pattern after it, even when an error is active. */
  lemma OtaIsAdditive(w: bv32)
    requires Has(w, OTA)
    ensures Resolve(w) == [OtaPattern, PatternOf(Ladder(w & !OTA))]
  {
    LadderIgnoresOta(w);
  }
}
