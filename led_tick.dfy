/** One pass of the LED map's refresh loop: the tracked-route list read from
    the keys of `lines.yml`, the vehicle feed, the stop table loaded from
    `stop_data.csv`, and the TLC5947 channel buffer that the loop lights,
    commits and clears again. */
module LedMap {
  import opened YamlKeys

  /** Brightness written to a channel whose stop has a vehicle. */
  const LED_BRIGHTNESS: int := 2048

  /** The stop id the lookup is keyed on, whatever stop the vehicle is at. */
  const HARDCODED_STOP: string := "70061"

  /** One vehicle of the feed: only its route and its stop are read. */
  datatype Vehicle = Vehicle(route: string, stopId: string)

  /** One row of the stop table; `ledId` is the wiring channel or a sentinel. */
  datatype StopRow = StopRow(stopId: string, stopName: string, ledId: int)

  /** `.loc[label, "led_id"]` on a frame that has no such row label. */
  datatype LookupError = MissingLabel(rowLabel: int)

  datatype Result<T> = Ok(value: T) | Err(error: LookupError)

  /** What one tick hands to the hardware and leaves in the buffer. */
  datatype TickRecord = TickRecord(frame: seq<int>, after: seq<int>)

  /** 0 (the placeholder the stop downloader writes) and -1 mean "no LED". */
  predicate IsSentinel(led: int) { led == 0 || led == -1 }

  /** Every wired channel of the table addresses one of the `n` channels. */
  predicate TableFits(table: seq<StopRow>, n: nat)
  {
    forall i :: 0 <= i < |table| ==> IsSentinel(table[i].ledId) || 0 <= table[i].ledId < n
  }

  // ---------------------------------------------------------------------
  // Tracked routes
  // ---------------------------------------------------------------------

  /** The key list after its entries were replaced by their `str()`. */
  function Normalised(keys: seq<YamlKey>): seq<YamlKey>
  {
    seq(|keys|, i requires 0 <= i < |keys| => KeyStr(PyStr(keys[i])))
  }

  /** `route in lines`: Python equality, so only a string entry equal to the
      route matches (an integer entry never equals a route string). */
  predicate Tracked(lines: seq<YamlKey>, route: string)
  {
    KeyStr(route) in lines
  }

  /** Turns every key of the list into its string form, in place. */
  method NormaliseLines(lines: array<YamlKey>)
    modifies lines
    ensures lines[..] == Normalised(old(lines[..]))
  {
    var index := 0;
    while index < lines.Length
      invariant 0 <= index <= lines.Length
      invariant forall k :: 0 <= k < index ==> lines[k] == KeyStr(PyStr(old(lines[k])))
      invariant forall k :: index <= k < lines.Length ==> lines[k] == old(lines[k])
    {
      lines[index] := KeyStr(PyStr(lines[index]));
      index := index + 1;
    }
  }

  /** After normalising, a route is tracked exactly when it equals the text of
      some key: no prefix or partial match. */
  lemma TrackedAfterNormalising(keys: seq<YamlKey>, route: string)
    ensures Tracked(Normalised(keys), route) <==> exists i :: 0 <= i < |keys| && PyStr(keys[i]) == route
  {
    var lines := Normalised(keys);
    if Tracked(lines, route) {
      var i :| 0 <= i < |lines| && lines[i] == KeyStr(route);
      assert PyStr(keys[i]) == route;
    }
    if exists i :: 0 <= i < |keys| && PyStr(keys[i]) == route {
      var i :| 0 <= i < |keys| && PyStr(keys[i]) == route;
      assert lines[i] == KeyStr(route);
    }
  }

  /** An integer key `742` tracks route "742" once normalised and no other
      route, be it another integer's decimal text or a string such as "0742". */
  lemma IntegerKeyTracksItsDecimal(n: int, m: int, route: string)
    ensures Tracked(Normalised([KeyInt(n)]), route) <==> route == PyStr(KeyInt(n))
    ensures Tracked(Normalised([KeyInt(n)]), PyStr(KeyInt(m))) <==> n == m
  {
    TrackedAfterNormalising([KeyInt(n)], route);
    TrackedAfterNormalising([KeyInt(n)], PyStr(KeyInt(m)));
    assert [KeyInt(n)][0] == KeyInt(n);
    if n != m {
      IntKeysStringifyApart(n, m);
    }
  }

  // ---------------------------------------------------------------------
  // Stop table lookup
  // ---------------------------------------------------------------------

  /** Row labels (positions, the frame having a default index) of the rows
      from `from` on whose stop id is `stop`, in order: the boolean mask keeps
      the original labels of the rows it selects. */
  function MatchingLabels(table: seq<StopRow>, stop: string, from: nat): (labels: seq<nat>)
    requires from <= |table|
    ensures forall l :: l in labels <==> from <= l < |table| && table[l].stopId == stop
    decreases |table| - from
  {
    if from == |table| then []
    else (if table[from].stopId == stop then [from] else []) + MatchingLabels(table, stop, from + 1)
  }

  /** `.loc[label, "led_id"]` on the rows selected by the mask. */
  function LocLed(table: seq<StopRow>, selected: seq<nat>, rowLabel: nat): Result<int>
  {
    if rowLabel in selected && rowLabel < |table| then Ok(table[rowLabel].ledId) else Err(MissingLabel(rowLabel))
  }

  /** Masking then `.loc` is label-based: label `l` is found exactly when row
      `l` of the original table has the stop id, and the LED read is that
      row's, not the `l`-th match's. */
  lemma MaskThenLoc(table: seq<StopRow>, stop: string, l: nat)
    ensures LocLed(table, MatchingLabels(table, stop, 0), l).Ok? <==> l < |table| && table[l].stopId == stop
    ensures LocLed(table, MatchingLabels(table, stop, 0), l).Ok? ==>
              LocLed(table, MatchingLabels(table, stop, 0), l).value == table[l].ledId
  {
  }

  /** The LED the loop turns on for any tracked vehicle: filter the table on
      the fixed stop id, then read label 0. It succeeds exactly when the
      table's first row has that stop id, and then gives that row's LED. */
  function Lookup(table: seq<StopRow>): (r: Result<int>)
    ensures r.Ok? <==> |table| > 0 && table[0].stopId == HARDCODED_STOP
    ensures r.Ok? ==> r.value == table[0].ledId
    ensures r.Err? ==> r.error == MissingLabel(0)
  {
    LocLed(table, MatchingLabels(table, HARDCODED_STOP, 0), 0)
  }

  // ---------------------------------------------------------------------
  // Turn-on pass
  // ---------------------------------------------------------------------

  /** The effect of one tracked vehicle on the buffer. */
  function Light(buf: seq<int>, table: seq<StopRow>): (r: Result<seq<int>>)
    requires TableFits(table, |buf|)
    ensures r.Ok? ==> |r.value| == |buf|
    ensures r.Err? <==> !(|table| > 0 && table[0].stopId == HARDCODED_STOP)
    ensures r.Ok? ==> forall c :: 0 <= c < |buf| && r.value[c] != buf[c] ==>
                        c == table[0].ledId && c != 0 && r.value[c] == LED_BRIGHTNESS
    ensures r.Ok? && !IsSentinel(table[0].ledId) ==> r.value[table[0].ledId] == LED_BRIGHTNESS
  {
    match Lookup(table)
    case Err(e) => Err(e)
    case Ok(led) => if IsSentinel(led) then Ok(buf) else Ok(buf[led := LED_BRIGHTNESS])
  }

  /** The effect of one vehicle of the feed on the buffer. */
  function Step(buf: seq<int>, lines: seq<YamlKey>, table: seq<StopRow>, v: Vehicle): (r: Result<seq<int>>)
    requires TableFits(table, |buf|)
    ensures r.Ok? ==> |r.value| == |buf|
    ensures !Tracked(lines, v.route) ==> r == Ok(buf)
    ensures r.Err? ==> Tracked(lines, v.route) && r.error == MissingLabel(0)
  {
    if !Tracked(lines, v.route) then Ok(buf) else Light(buf, table)
  }

  /** The feed processed vehicle by vehicle in order; the first failing
      lookup ends the pass. */
  function TurnOnPass(buf: seq<int>, lines: seq<YamlKey>, table: seq<StopRow>, feed: seq<Vehicle>): (r: Result<seq<int>>)
    requires TableFits(table, |buf|)
    ensures r.Ok? ==> |r.value| == |buf|
    decreases |feed|
  {
    if feed == [] then Ok(buf)
    else
      match TurnOnPass(buf, lines, table, feed[..|feed| - 1])
      case Err(e) => Err(e)
      case Ok(b) => Step(b, lines, table, feed[|feed| - 1])
  }

  predicate AnyTracked(lines: seq<YamlKey>, feed: seq<Vehicle>)
  {
    exists i :: 0 <= i < |feed| && Tracked(lines, feed[i].route)
  }

  /** Lighting is idempotent: a second tracked vehicle writes the same value
      to the same channel. */
  lemma LightIdempotent(buf: seq<int>, table: seq<StopRow>)
    requires TableFits(table, |buf|)
    ensures Light(buf, table).Ok? ==> Light(Light(buf, table).value, table) == Light(buf, table)
  {
    if Lookup(table).Ok? && !IsSentinel(Lookup(table).value) {
      var led := Lookup(table).value;
      assert buf[led := LED_BRIGHTNESS][led := LED_BRIGHTNESS] == buf[led := LED_BRIGHTNESS];
    }
  }

  /** The whole pass equals one tracked vehicle's effect, or nothing when no
      vehicle is on a tracked route. */
  lemma {:induction false} TurnOnPassIsOneLight(buf: seq<int>, lines: seq<YamlKey>, table: seq<StopRow>, feed: seq<Vehicle>)
    requires TableFits(table, |buf|)
    ensures TurnOnPass(buf, lines, table, feed) == if AnyTracked(lines, feed) then Light(buf, table) else Ok(buf)
    decreases |feed|
  {
    if feed != [] {
      var init, last := feed[..|feed| - 1], feed[|feed| - 1];
      TurnOnPassIsOneLight(buf, lines, table, init);
      assert AnyTracked(lines, feed) <==> AnyTracked(lines, init) || Tracked(lines, last.route) by {
        if AnyTracked(lines, feed) && !Tracked(lines, last.route) {
          var i :| 0 <= i < |feed| && Tracked(lines, feed[i].route);
          assert init[i] == feed[i];
        }
        if AnyTracked(lines, init) {
          var i :| 0 <= i < |init| && Tracked(lines, init[i].route);
          assert feed[i] == init[i];
        }
      }
      LightIdempotent(buf, table);
    }
  }

  /** What the turn-on pass does, in terms of the table's first row: the one
      channel of that row is set to LED_BRIGHTNESS when some vehicle is on a
      tracked route, the row has the fixed stop id and its LED is wired; the
      lookup fails when a vehicle is tracked and the row does not match. */
  lemma {:induction false} TurnOnPassEffect(buf: seq<int>, lines: seq<YamlKey>, table: seq<StopRow>, feed: seq<Vehicle>)
    requires TableFits(table, |buf|)
    ensures TurnOnPass(buf, lines, table, feed).Err? <==>
              AnyTracked(lines, feed) && !(|table| > 0 && table[0].stopId == HARDCODED_STOP)
    ensures TurnOnPass(buf, lines, table, feed).Ok? ==>
              TurnOnPass(buf, lines, table, feed).value ==
                if AnyTracked(lines, feed) && !IsSentinel(table[0].ledId)
                then buf[table[0].ledId := LED_BRIGHTNESS] else buf
  {
    TurnOnPassIsOneLight(buf, lines, table, feed);
  }

  /** At most one channel changes, it is never 0, and it receives exactly
      LED_BRIGHTNESS. */
  lemma {:induction false} TurnOnPassChangesOneChannel(buf: seq<int>, lines: seq<YamlKey>, table: seq<StopRow>, feed: seq<Vehicle>, c: int)
    requires TableFits(table, |buf|)
    requires TurnOnPass(buf, lines, table, feed).Ok?
    requires 0 <= c < |buf| && TurnOnPass(buf, lines, table, feed).value[c] != buf[c]
    ensures |table| > 0 && table[0].stopId == HARDCODED_STOP && c == table[0].ledId && c != 0
    ensures AnyTracked(lines, feed) && TurnOnPass(buf, lines, table, feed).value[c] == LED_BRIGHTNESS
  {
    TurnOnPassEffect(buf, lines, table, feed);
  }

  /** A vehicle on an untracked route can be removed from the feed, wherever
      it stands, without changing the outcome. */
  lemma UntrackedVehicleHasNoEffect(buf: seq<int>, lines: seq<YamlKey>, table: seq<StopRow>,
                                    before: seq<Vehicle>, v: Vehicle, after: seq<Vehicle>)
    requires TableFits(table, |buf|)
    requires !Tracked(lines, v.route)
    ensures TurnOnPass(buf, lines, table, before + [v] + after) == TurnOnPass(buf, lines, table, before + after)
  {
    var with, without := before + [v] + after, before + after;
    TurnOnPassIsOneLight(buf, lines, table, with);
    TurnOnPassIsOneLight(buf, lines, table, without);
    if AnyTracked(lines, with) {
      var i :| 0 <= i < |with| && Tracked(lines, with[i].route);
      if i < |before| {
        assert without[i] == with[i];
      } else {
        assert i != |before|;
        assert without[i - 1] == with[i];
      }
    }
    if AnyTracked(lines, without) {
      var i :| 0 <= i < |without| && Tracked(lines, without[i].route);
      if i < |before| {
        assert with[i] == without[i];
      } else {
        assert with[i + 1] == without[i];
      }
    }
  }

  /** The stop each vehicle reports plays no part: two feeds whose vehicles
      are on the same routes give the same outcome. */
  lemma {:induction false} VehicleStopIgnored(buf: seq<int>, lines: seq<YamlKey>, table: seq<StopRow>, feed: seq<Vehicle>, other: seq<Vehicle>)
    requires TableFits(table, |buf|)
    requires |feed| == |other|
    requires forall i :: 0 <= i < |feed| ==> feed[i].route == other[i].route
    ensures TurnOnPass(buf, lines, table, feed) == TurnOnPass(buf, lines, table, other)
  {
    TurnOnPassIsOneLight(buf, lines, table, feed);
    TurnOnPassIsOneLight(buf, lines, table, other);
    if AnyTracked(lines, feed) {
      var i :| 0 <= i < |feed| && Tracked(lines, feed[i].route);
      assert Tracked(lines, other[i].route);
    }
    if AnyTracked(lines, other) {
      var i :| 0 <= i < |other| && Tracked(lines, other[i].route);
      assert Tracked(lines, feed[i].route);
    }
  }

  /** Any number of tracked vehicles leave the buffer as a single one does. */
  lemma ManyVehiclesActLikeOne(buf: seq<int>, lines: seq<YamlKey>, table: seq<StopRow>, feed: seq<Vehicle>, k: nat)
    requires TableFits(table, |buf|)
    requires k < |feed| && Tracked(lines, feed[k].route)
    ensures TurnOnPass(buf, lines, table, feed) == TurnOnPass(buf, lines, table, [feed[k]])
  {
    TurnOnPassIsOneLight(buf, lines, table, feed);
    TurnOnPassIsOneLight(buf, lines, table, [feed[k]]);
    assert [feed[k]][0] == feed[k];
  }

  // ---------------------------------------------------------------------
  // Clear pass
  // ---------------------------------------------------------------------

  /** A wired channel listed in some row of the table. */
  predicate InTable(table: seq<StopRow>, c: int)
  {
    !IsSentinel(c) && exists i :: 0 <= i < |table| && table[i].ledId == c
  }

  /** Every wired channel of the table set back to 0, row by row. */
  function ClearPass(buf: seq<int>, table: seq<StopRow>): (r: seq<int>)
    requires TableFits(table, |buf|)
    ensures |r| == |buf|
    decreases |table|
  {
    if table == [] then buf
    else
      var init, last := table[..|table| - 1], table[|table| - 1];
      assert TableFits(init, |buf|) by {
        forall i | 0 <= i < |init| ensures IsSentinel(init[i].ledId) || 0 <= init[i].ledId < |buf| {
          assert init[i] == table[i];
        }
      }
      var b := ClearPass(buf, init);
      if IsSentinel(last.ledId) then b else b[last.ledId := 0]
  }

  /** The clear pass zeroes exactly the table's wired channels and leaves
      every other channel (sentinel 0 included) as it was. */
  lemma {:induction false} ClearPassEffect(buf: seq<int>, table: seq<StopRow>, c: int)
    requires TableFits(table, |buf|)
    requires 0 <= c < |buf|
    ensures ClearPass(buf, table)[c] == if InTable(table, c) then 0 else buf[c]
    decreases |table|
  {
    if table != [] {
      var init, last := table[..|table| - 1], table[|table| - 1];
      assert TableFits(init, |buf|) by {
        forall i | 0 <= i < |init| ensures IsSentinel(init[i].ledId) || 0 <= init[i].ledId < |buf| {
          assert init[i] == table[i];
        }
      }
      ClearPassEffect(buf, init, c);
      assert InTable(table, c) <==> InTable(init, c) || (!IsSentinel(c) && last.ledId == c) by {
        if InTable(table, c) && last.ledId != c {
          var i :| 0 <= i < |table| && table[i].ledId == c;
          assert init[i] == table[i];
        }
        if InTable(init, c) {
          var i :| 0 <= i < |init| && init[i].ledId == c;
          assert table[i] == init[i];
        }
      }
    }
  }

  /** All wired channels of the table are off. */
  predicate Quiescent(buf: seq<int>, table: seq<StopRow>)
  {
    forall c :: 0 <= c < |buf| && InTable(table, c) ==> buf[c] == 0
  }

  /** After the clear pass the table's channels are all off; clearing a
      buffer whose table channels are already off changes nothing. */
  lemma {:induction false} ClearPassQuiesces(buf: seq<int>, table: seq<StopRow>)
    requires TableFits(table, |buf|)
    ensures Quiescent(ClearPass(buf, table), table)
    ensures Quiescent(buf, table) ==> ClearPass(buf, table) == buf
  {
    var r := ClearPass(buf, table);
    forall c | 0 <= c < |buf|
      ensures r[c] == if InTable(table, c) then 0 else buf[c]
    {
      ClearPassEffect(buf, table, c);
    }
  }

  // ---------------------------------------------------------------------
  // One tick
  // ---------------------------------------------------------------------

  /** One iteration of the refresh loop from the buffer `buf` it starts with:
      the frame committed by the one write, and the buffer after clearing;
      or the lookup error that ends the loop. */
  function TickSpec(buf: seq<int>, lines: seq<YamlKey>, table: seq<StopRow>, feed: seq<Vehicle>): Result<TickRecord>
    requires TableFits(table, |buf|)
  {
    match TurnOnPass(buf, lines, table, feed)
    case Err(e) => Err(e)
    case Ok(on) => Ok(TickRecord(on, ClearPass(on, table)))
  }

  /** The buffer left by a tick does not depend on the feed: it is the
      starting buffer with the table's channels cleared, all of them off. */
  lemma TickEndsCleared(buf: seq<int>, lines: seq<YamlKey>, table: seq<StopRow>, feed: seq<Vehicle>)
    requires TableFits(table, |buf|)
    ensures TickSpec(buf, lines, table, feed).Ok? ==>
              TickSpec(buf, lines, table, feed).value.after == ClearPass(buf, table)
    ensures TickSpec(buf, lines, table, feed).Ok? ==>
              Quiescent(TickSpec(buf, lines, table, feed).value.after, table)
  {
    if TurnOnPass(buf, lines, table, feed).Ok? {
      var on := TurnOnPass(buf, lines, table, feed).value;
      forall c | 0 <= c < |buf|
        ensures ClearPass(on, table)[c] == ClearPass(buf, table)[c]
      {
        ClearPassEffect(on, table, c);
        ClearPassEffect(buf, table, c);
        if on[c] != buf[c] {
          TurnOnPassChangesOneChannel(buf, lines, table, feed, c);
          assert InTable(table, c) by { assert table[0].ledId == c; }
        }
      }
      ClearPassQuiesces(buf, table);
    }
  }

  /** Loop invariant of the refresh loop: when every table channel is off at
      the top of a tick, the tick that completes leaves the buffer exactly as
      it found it, so every tick starts from the same buffer. */
  lemma TickPreservesQuiescence(buf: seq<int>, lines: seq<YamlKey>, table: seq<StopRow>, feed: seq<Vehicle>)
    requires TableFits(table, |buf|)
    requires Quiescent(buf, table)
    ensures TickSpec(buf, lines, table, feed).Ok? ==> TickSpec(buf, lines, table, feed).value.after == buf
  {
    TickEndsCleared(buf, lines, table, feed);
    ClearPassQuiesces(buf, table);
  }

  /** The driver starts with every channel off, which is quiescent for any
      table, so every completed tick of the loop starts from that buffer. */
  lemma TicksStartFromPowerOn(n: nat, lines: seq<YamlKey>, table: seq<StopRow>, feed: seq<Vehicle>)
    requires TableFits(table, n)
    ensures Quiescent(seq(n, _ => 0), table)
    ensures TickSpec(seq(n, _ => 0), lines, table, feed).Ok? ==>
              TickSpec(seq(n, _ => 0), lines, table, feed).value.after == seq(n, _ => 0)
  {
    TickPreservesQuiescence(seq(n, _ => 0), lines, table, feed);
  }

  /** The TLC5947 driver as the loop sees it: a buffer of channel values
      (written by index, as `tlc5947[led] = value`) and the frames committed
      to the hardware by `write()`, oldest first. */
  class Tlc5947 {
    const channels: array<int>
    var frames: seq<seq<int>>

    /** A driver of `n` channels, all off, nothing committed yet. */
    constructor (n: nat)
      ensures fresh(channels) && channels.Length == n
      ensures forall c :: 0 <= c < n ==> channels[c] == 0
      ensures frames == []
    {
      channels := new int[n](_ => 0);
      frames := [];
    }

    method SetChannel(c: int, value: int)
      requires 0 <= c < channels.Length
      modifies channels
      ensures channels[..] == old(channels[..])[c := value]
    {
      channels[c] := value;
    }

    /** `write()`: commits the whole buffer as it stands. */
    method Write()
      modifies this
      ensures frames == old(frames) + [channels[..]]
    {
      frames := frames + [channels[..]];
    }
  }

  /** The body of the refresh loop, for one feed snapshot: light the channel
      of each tracked vehicle, commit once, then clear the table's channels.
      A failing lookup ends it at once, before anything was written. */
  method Tick(tlc: Tlc5947, lines: seq<YamlKey>, table: seq<StopRow>, feed: seq<Vehicle>) returns (r: Result<TickRecord>)
    requires TableFits(table, tlc.channels.Length)
    modifies tlc, tlc.channels
    ensures r == TickSpec(old(tlc.channels[..]), lines, table, feed)
    ensures r.Err? ==> tlc.channels[..] == old(tlc.channels[..]) && tlc.frames == old(tlc.frames)
    ensures r.Ok? ==> tlc.frames == old(tlc.frames) + [r.value.frame] && tlc.channels[..] == r.value.after
  {
    ghost var start := tlc.channels[..];
    var i := 0;
    while i < |feed|
      invariant 0 <= i <= |feed|
      invariant TurnOnPass(start, lines, table, feed[..i]) == Ok(tlc.channels[..])
      invariant tlc.frames == old(tlc.frames)
    {
      assert feed[..i + 1][..i] == feed[..i];
      var v := feed[i];
      if !Tracked(lines, v.route) {
        i := i + 1;
        continue;
      }
      var found := Lookup(table);
      if found.Err? {
        TurnOnPassIsOneLight(start, lines, table, feed[..i]);
        TurnOnPassIsOneLight(start, lines, table, feed);
        assert Tracked(lines, feed[i].route);
        return Err(found.error);
      }
      var led := found.value;
      if led != 0 && led != -1 {
        tlc.SetChannel(led, LED_BRIGHTNESS);
      }
      i := i + 1;
    }
    assert feed[..|feed|] == feed;
    var on := tlc.channels[..];
    tlc.Write();

    var j := 0;
    while j < |table|
      invariant 0 <= j <= |table|
      invariant TableFits(table[..j], |on|)
      invariant ClearPass(on, table[..j]) == tlc.channels[..]
      invariant tlc.frames == old(tlc.frames) + [on]
    {
      assert table[..j + 1][..j] == table[..j];
      var led := table[j].ledId;
      if led != 0 && led != -1 {
        tlc.SetChannel(led, 0);
      }
      j := j + 1;
    }
    assert table[..|table|] == table;
    r := Ok(TickRecord(on, tlc.channels[..]));
  }
}
