/** Reading the InfiniBand device tree: each adapter directory holds a `ports`
    directory with one sub-directory per port, whose `state`, `rate` and
    counters files are plain text. The tree is given as a value: what a
    directory listing or a file read would return, with None for what cannot be
    read. */
module Discovery {
  import opened Text
  import opened Types

  /** mlx5 reports the data counters in 32-bit words. */
  const MLX5_DATA_MULTIPLIER: nat := 4

  // ---- Port state ------------------------------------------------------------

  /** The state text after the first ':' ("4: ACTIVE" -> "ACTIVE"), or all of it. */
  function StateText(raw: string): (s: string)
    ensures IsTrimmed(s)
  {
    var rawState := Trim(raw);
    match Find(rawState, ':')
    case Some(colon) => Trim(rawState[colon + 1..])
    case None => rawState
  }

  /** `read_port_state` on the content of the `state` file (None when it cannot be
      read, which reads as empty text). */
  function ReadPortState(raw: Option<string>): (st: PortState)
    ensures raw.None? ==> st == Unknown
  {
    ParseState(StateText(raw.GetOr(""))).state
  }

  /** The first occurrence of `c` is the one with none before it. */
  lemma FindFirst(s: string, c: char, i: nat)
    requires i < |s| && s[i] == c && c !in s[..i]
    ensures Find(s, c) == Some(i)
  {
    assert c in s;
  }

  /** A line break after text without whitespace at its ends is trimmed away. */
  lemma TrimLine(s: string)
    requires IsTrimmed(s)
    ensures Trim(s + "\n") == s
  {
    assert AllWhitespace("") && AllWhitespace("\n");
    TrimIgnoresPadding("", s, "\n");
    assert "" + s + "\n" == s + "\n";
    TrimOfTrimmed(s);
  }

  /** A space before text without whitespace at its ends is trimmed away. */
  lemma TrimAfterSpace(s: string)
    requires IsTrimmed(s)
    ensures Trim(" " + s) == s && Trim(s + " ") == s
  {
    assert AllWhitespace("") && AllWhitespace(" ");
    TrimIgnoresPadding(" ", s, "");
    assert " " + s + "" == " " + s;
    TrimIgnoresPadding("", s, " ");
    assert "" + s + " " == s + " ";
    TrimOfTrimmed(s);
  }

  /** The text of "<digits>: <name>": the first ':' follows the digits. */
  lemma StateTextOf(d: string, name: string)
    requires d != [] && AllDigits(d) && name != [] && IsTrimmed(name)
    ensures StateText(d + ": " + name + "\n") == name
  {
    var body := d + ": " + name;
    StateBody(d, name);
    StateCut(body, |d|);
    TrimAfterSpace(name);
    var raw := d + ": " + name + "\n";
    assert raw == body + "\n";
  }

  lemma StateBody(d: string, name: string)
    requires d != [] && AllDigits(d) && name != [] && IsTrimmed(name)
    ensures var body := d + ": " + name;
      IsTrimmed(body) && Find(body, ':') == Some(|d|) && body[|d| + 1..] == " " + name
  {
    var body := d + ": " + name;
    assert body[0] == d[0] && body[|body| - 1] == name[|name| - 1];
    assert IsDigit(body[0]);
    assert body[..|d|] == d;
    assert ':' !in d;
    FindFirst(body, ':', |d|);
    assert body[|d| + 1..] == " " + name;
  }

  /** A trimmed line's state is the trim of what follows its first ':'. */
  lemma StateCut(body: string, p: nat)
    requires IsTrimmed(body) && Find(body, ':') == Some(p)
    ensures StateText(body + "\n") == Trim(body[p + 1..])
  {
    TrimLine(body);
  }

  /** The kernel writes the state as "<number>: <NAME>" and a line break; reading it
      back gives the state named. */
  lemma StateFileRoundTrip(n: nat, st: PortState)
    ensures ReadPortState(Some(NatToString(n) + ": " + StateToString(st) + "\n")) == st
  {
    StateTextOf(NatToString(n), StateToString(st));
    DisplayParseRoundTrip(st);
  }

  /** Text without a colon is parsed whole. */
  lemma StateWithoutColon(raw: string)
    requires ':' !in raw
    ensures ReadPortState(Some(raw)) == ParseState(raw).state
  {
    var t := Trim(raw);
    assert ':' !in t by {
      assert t == raw[StartIndex(raw, 0)..StartIndex(raw, 0) + |t|];
    }
    TrimIdempotent(raw);
  }

  // ---- Port rate -------------------------------------------------------------

  /** `read_port_rate`: the trimmed text before the first '(' (dropping a detail such
      as "(4X EDR)"), or all the trimmed text. */
  function ReadPortRate(raw: Option<string>): (r: string)
    ensures IsTrimmed(r) && '(' !in r
  {
    var rawRate := Trim(raw.GetOr(""));
    match Find(rawRate, '(')
    case Some(paren) =>
      var t := Trim(rawRate[..paren]);
      assert t == rawRate[..paren][StartIndex(rawRate[..paren], 0)..StartIndex(rawRate[..paren], 0) + |t|];
      t
    case None => rawRate
  }

  /** With the first '(' of the trimmed file at `q`, the rate is the trim of what precedes it. */
  lemma RateCutAt(raw: string, q: nat)
    requires Find(Trim(raw), '(') == Some(q)
    ensures q <= |Trim(raw)| && ReadPortRate(Some(raw)) == Trim(Trim(raw)[..q])
  {
  }

  /** A rate written as "<rate> (<detail>)" and a line break reads as `<rate>`. */
  lemma RateDropsDetail(rate: string, detail: string)
    requires rate != [] && IsTrimmed(rate) && '(' !in rate
    ensures ReadPortRate(Some(rate + " (" + detail + ")\n")) == rate
  {
    var body := rate + " (" + detail + ")";
    RateBody(rate, detail);
    RateCut(body, |rate| + 1);
    TrimAfterSpace(rate);
    var raw := rate + " (" + detail + ")\n";
    assert raw == body + "\n";
  }

  lemma RateBody(rate: string, detail: string)
    requires rate != [] && IsTrimmed(rate) && '(' !in rate
    ensures var body := rate + " (" + detail + ")";
      IsTrimmed(body) && Find(body, '(') == Some(|rate| + 1) && body[..|rate| + 1] == rate + " "
  {
    var body := rate + " (" + detail + ")";
    assert body[0] == rate[0] && body[|body| - 1] == ')';
    assert body[..|rate| + 1] == rate + " ";
    assert '(' !in rate + " ";
    FindFirst(body, '(', |rate| + 1);
  }

  /** A trimmed line's rate is the trim of what precedes its first '('. */
  lemma RateCut(body: string, p: nat)
    requires IsTrimmed(body) && Find(body, '(') == Some(p)
    ensures ReadPortRate(Some(body + "\n")) == Trim(body[..p])
  {
    TrimLine(body);
  }

  /** A `rate` file in the format of ibtop's `test_truncate_rate` input. */
  lemma RateExample()
    ensures ReadPortRate(Some("100 Gb/sec (4X EDR)\n")) == "100 Gb/sec"
  {
    RateExampleText();
    RateDropsDetail("100 Gb/sec", "4X EDR");
  }

  lemma RateExampleText()
    ensures IsTrimmed("100 Gb/sec") && '(' !in "100 Gb/sec"
    ensures "100 Gb/sec" + " (" + "4X EDR" + ")\n" == "100 Gb/sec (4X EDR)\n"
  {
  }

  /** A rate without a parenthesised detail is read whole, trimmed. */
  lemma RateWithoutDetail(raw: string)
    requires '(' !in raw
    ensures ReadPortRate(Some(raw)) == Trim(raw)
  {
    var t := Trim(raw);
    assert t == raw[StartIndex(raw, 0)..StartIndex(raw, 0) + |t|];
  }

  // ---- Counters --------------------------------------------------------------

  /** A counter file's value: its trimmed text parsed as a `u64`, 0 when the file is
      missing or the text does not parse. */
  function CounterText(content: Option<string>): (v: nat)
    ensures v <= U64_MAX
  {
    match content
    case None => 0
    case Some(c) => ParseUnsigned(Trim(c), U64_MAX).GetOr(0)
  }

  function FileIn(files: map<string, string>, name: string): Option<string> {
    if name in files then Some(files[name]) else None
  }

  predicate IsDataCounter(filename: string) {
    filename == "port_rcv_data" || filename == "port_xmit_data"
  }

  /** The word-to-byte multiplication of a data counter does not overflow a `u64`. */
  predicate CounterFits(files: map<string, string>, filename: string) {
    IsDataCounter(filename) ==> CounterText(FileIn(files, filename)) * MLX5_DATA_MULTIPLIER <= U64_MAX
  }

  /** `read_counter_value`: data counters are scaled from words to bytes, every other
      counter is read as it is. */
  function ReadCounterValue(files: map<string, string>, filename: string): u64
    requires CounterFits(files, filename)
  {
    var value := CounterText(FileIn(files, filename));
    if IsDataCounter(filename) then value * MLX5_DATA_MULTIPLIER else value
  }

  /** A number written with whitespace around it reads back as that number, times four
      for the two data counters. */
  lemma CounterRoundTrip(files: map<string, string>, filename: string, pre: string, n: nat, post: string)
    requires AllWhitespace(pre) && AllWhitespace(post) && n <= U64_MAX
    requires filename in files && files[filename] == pre + NatToString(n) + post
    requires IsDataCounter(filename) ==> n * MLX5_DATA_MULTIPLIER <= U64_MAX
    ensures CounterFits(files, filename)
    ensures ReadCounterValue(files, filename) == if IsDataCounter(filename) then n * MLX5_DATA_MULTIPLIER else n
  {
    TrimIgnoresPadding(pre, NatToString(n), post);
    NatToStringTrimmed(n);
    ParseDisplayRoundTrip(n, U64_MAX);
  }

  /** A missing counter file, or one whose text is not a number, reads as 0. */
  lemma CounterGarbageIsZero(files: map<string, string>, filename: string)
    requires filename !in files || ParseUnsigned(Trim(files[filename]), U64_MAX).None?
    ensures CounterFits(files, filename) && ReadCounterValue(files, filename) == 0
  {
  }

  /** All of a port's counters fit: both data counters can be scaled. */
  predicate DataFits(counters: Option<map<string, string>>) {
    counters.Some? ==> CounterFits(counters.value, "port_rcv_data") && CounterFits(counters.value, "port_xmit_data")
  }

  /** The counters of a port from its `counters` directory (None when it does not
      exist): each field from its file. */
  function PortCountersOf(counters: Option<map<string, string>>): PortCounters
    requires DataFits(counters)
  {
    match counters
    case None => DefaultCounters()
    case Some(files) =>
      PortCounters(
        ReadCounterValue(files, "port_rcv_data"),
        ReadCounterValue(files, "port_xmit_data"),
        ReadCounterValue(files, "port_rcv_packets"),
        ReadCounterValue(files, "port_xmit_packets"),
        ReadCounterValue(files, "port_rcv_errors"),
        ReadCounterValue(files, "port_xmit_discards"),
        ReadCounterValue(files, "port_rcv_constraint_errors"))
  }

  /** `read_port_counters`: starts from all zeros and, when the directory exists, fills
      in one field per counter file. */
  method ReadPortCounters(counters: Option<map<string, string>>) returns (c: PortCounters)
    requires DataFits(counters)
    ensures c == PortCountersOf(counters)
  {
    c := DefaultCounters();
    if counters.Some? {
      var files := counters.value;
      c := c.(rxBytes := ReadCounterValue(files, "port_rcv_data"));
      c := c.(txBytes := ReadCounterValue(files, "port_xmit_data"));
      c := c.(rxPackets := ReadCounterValue(files, "port_rcv_packets"));
      c := c.(txPackets := ReadCounterValue(files, "port_xmit_packets"));
      c := c.(rxErrors := ReadCounterValue(files, "port_rcv_errors"));
      c := c.(txErrors := ReadCounterValue(files, "port_xmit_discards"));
      c := c.(rxDropped := ReadCounterValue(files, "port_rcv_constraint_errors"));
    }
  }

  /** The counters directory the kernel writes for the given counts: one file per
      counter holding its decimal value and a line break. */
  function SysfsCounters(rcvData: nat, xmitData: nat, rcvPackets: nat, xmitPackets: nat,
                         rcvErrors: nat, xmitDiscards: nat, constraintErrors: nat): map<string, string> {
    map[
      "port_rcv_data" := NatToString(rcvData) + "\n",
      "port_xmit_data" := NatToString(xmitData) + "\n",
      "port_rcv_packets" := NatToString(rcvPackets) + "\n",
      "port_xmit_packets" := NatToString(xmitPackets) + "\n",
      "port_rcv_errors" := NatToString(rcvErrors) + "\n",
      "port_xmit_discards" := NatToString(xmitDiscards) + "\n",
      "port_rcv_constraint_errors" := NatToString(constraintErrors) + "\n"]
  }

  /** Each counter's file holds what was written for it. */
  lemma SysfsCountersFiles(rcvData: nat, xmitData: nat, rcvPackets: nat, xmitPackets: nat,
                           rcvErrors: nat, xmitDiscards: nat, constraintErrors: nat)
    ensures var files := SysfsCounters(rcvData, xmitData, rcvPackets, xmitPackets, rcvErrors, xmitDiscards, constraintErrors);
      && files["port_rcv_data"] == NatToString(rcvData) + "\n"
      && files["port_xmit_data"] == NatToString(xmitData) + "\n"
      && files["port_rcv_packets"] == NatToString(rcvPackets) + "\n"
      && files["port_xmit_packets"] == NatToString(xmitPackets) + "\n"
      && files["port_rcv_errors"] == NatToString(rcvErrors) + "\n"
      && files["port_xmit_discards"] == NatToString(xmitDiscards) + "\n"
      && files["port_rcv_constraint_errors"] == NatToString(constraintErrors) + "\n"
      && !IsDataCounter("port_rcv_packets") && !IsDataCounter("port_xmit_packets")
      && !IsDataCounter("port_rcv_errors") && !IsDataCounter("port_xmit_discards")
      && !IsDataCounter("port_rcv_constraint_errors")
  {
  }

  lemma CounterFileRoundTrip(files: map<string, string>, filename: string, n: nat)
    requires n <= U64_MAX && filename in files && files[filename] == NatToString(n) + "\n"
    requires IsDataCounter(filename) ==> n * MLX5_DATA_MULTIPLIER <= U64_MAX
    ensures CounterFits(files, filename)
    ensures ReadCounterValue(files, filename) == if IsDataCounter(filename) then n * MLX5_DATA_MULTIPLIER else n
  {
    assert AllWhitespace("") && AllWhitespace("\n");
    assert files[filename] == "" + NatToString(n) + "\n";
    CounterRoundTrip(files, filename, "", n, "\n");
  }

  /** Reading back what the kernel wrote: the data counters in bytes, the rest as
      written: transmit errors are the transmit discards, drops the constraint errors. */
  lemma CountersRoundTrip(rcvData: u64, xmitData: u64, rcvPackets: u64, xmitPackets: u64,
                          rcvErrors: u64, xmitDiscards: u64, constraintErrors: u64)
    requires rcvData * MLX5_DATA_MULTIPLIER <= U64_MAX && xmitData * MLX5_DATA_MULTIPLIER <= U64_MAX
    ensures var files := SysfsCounters(rcvData, xmitData, rcvPackets, xmitPackets, rcvErrors, xmitDiscards, constraintErrors);
      DataFits(Some(files)) &&
      PortCountersOf(Some(files)) == PortCounters(rcvData * MLX5_DATA_MULTIPLIER, xmitData * MLX5_DATA_MULTIPLIER,
                                                  rcvPackets, xmitPackets, rcvErrors, xmitDiscards, constraintErrors)
  {
    var files := SysfsCounters(rcvData, xmitData, rcvPackets, xmitPackets, rcvErrors, xmitDiscards, constraintErrors);
    SysfsCountersFiles(rcvData, xmitData, rcvPackets, xmitPackets, rcvErrors, xmitDiscards, constraintErrors);
    CounterFileRoundTrip(files, "port_rcv_data", rcvData);
    CounterFileRoundTrip(files, "port_xmit_data", xmitData);
    CounterFileRoundTrip(files, "port_rcv_packets", rcvPackets);
    CounterFileRoundTrip(files, "port_xmit_packets", xmitPackets);
    CounterFileRoundTrip(files, "port_rcv_errors", rcvErrors);
    CounterFileRoundTrip(files, "port_xmit_discards", xmitDiscards);
    CounterFileRoundTrip(files, "port_rcv_constraint_errors", constraintErrors);
  }

  /** Without a counters directory every counter is 0. */
  lemma NoCountersDirectory()
    ensures PortCountersOf(None) == DefaultCounters()
  {
  }

  // ---- Ports and adapters ------------------------------------------------------

  /** What a port directory holds; None for a file that cannot be read. */
  datatype PortDir = PortDir(state: Option<string>, rate: Option<string>, counters: Option<map<string, string>>)

  /** An adapter directory: the names listed in its `ports` directory (None when that
      directory is missing or unreadable) and the port directories by name. */
  datatype AdapterDir = AdapterDir(portEntries: Option<seq<string>>, portDirs: map<string, PortDir>)

  /** Every port directory's data counters fit. */
  predicate AdapterFits(dir: AdapterDir) {
    forall name :: name in dir.portDirs ==> DataFits(dir.portDirs[name].counters)
  }

  /** The directory of port `number`: the one named by its decimal form, or an empty
      one when there is none. */
  function PortDirOf(dir: AdapterDir, number: u16): (d: PortDir)
    requires AdapterFits(dir)
    ensures DataFits(d.counters)
  {
    var name := NatToString(number);
    if name in dir.portDirs then dir.portDirs[name] else PortDir(None, None, None)
  }

  function PortInfoOf(dir: AdapterDir, number: u16): PortInfo
    requires AdapterFits(dir)
  {
    var d := PortDirOf(dir, number);
    PortInfo(number, ReadPortState(d.state), ReadPortRate(d.rate), PortCountersOf(d.counters))
  }

  /** `create_port_info`: reads the port's files from the directory named by its number. */
  method CreatePortInfo(dir: AdapterDir, number: u16) returns (p: PortInfo)
    requires AdapterFits(dir)
    ensures p == PortInfoOf(dir, number)
  {
    var d := PortDirOf(dir, number);
    var state := ReadPortState(d.state);
    var rate := ReadPortRate(d.rate);
    var counters := ReadPortCounters(d.counters);
    p := PortInfo(number, state, rate, counters);
  }

  /** An entry of the `ports` directory names a port when it parses as a `u16`. */
  function PortOfEntry(entry: string): (r: Option<u16>)
    ensures r.Some? <==> ParseUnsigned(entry, U16_MAX).Some?
    ensures r.Some? ==> r.value as nat == ParseUnsigned(entry, U16_MAX).value
  {
    match ParseUnsigned(entry, U16_MAX)
    case Some(n) => Some(n as u16)
    case None => None
  }

  /** The port numbers of the entries that parse as a `u16`, in listing order. */
  function PortNumbers(entries: seq<string>): (ns: seq<u16>)
    ensures |ns| <= |entries|
  {
    if entries == [] then []
    else
      var init := PortNumbers(entries[..|entries| - 1]);
      match PortOfEntry(entries[|entries| - 1])
      case Some(n) => init + [n]
      case None => init
  }

  /** Listing one more entry appends its number, if it has one. */
  lemma PortNumbersSnoc(entries: seq<string>, entry: string)
    ensures PortNumbers(entries + [entry]) ==
      PortNumbers(entries) + (if PortOfEntry(entry).Some? then [PortOfEntry(entry).value] else [])
  {
    assert (entries + [entry])[..|entries|] == entries;
  }

  /** Some entry of the listing parses to `n`. */
  ghost predicate Lists(entries: seq<string>, n: u16) {
    exists j :: 0 <= j < |entries| && PortOfEntry(entries[j]) == Some(n)
  }

  /** A number is a port of the listing exactly when some entry parses to it. */
  lemma {:induction false} PortNumbersComplete(entries: seq<string>)
    ensures forall n: u16 :: n in PortNumbers(entries) <==> Lists(entries, n)
  {
    if entries != [] {
      var init, last := entries[..|entries| - 1], entries[|entries| - 1];
      PortNumbersComplete(init);
      forall n: u16 ensures n in PortNumbers(entries) <==> Lists(entries, n) {
        if n in PortNumbers(init) {
          var j :| 0 <= j < |init| && PortOfEntry(init[j]) == Some(n);
          assert entries[j] == init[j];
        }
        if Lists(entries, n) {
          var j :| 0 <= j < |entries| && PortOfEntry(entries[j]) == Some(n);
          if j < |init| {
            assert init[j] == entries[j];
            assert Lists(init, n);
          }
        }
      }
    }
  }

  lemma DigitsSnoc(s: string, c: char)
    requires AllDigits(s) && IsDigit(c)
    ensures AllDigits(s + [c]) && DigitsValue(s + [c]) == DigitsValue(s) * 10 + DigitValue(c)
  {
    assert (s + [c])[..|s|] == s;
  }

  /** How the entries of the example below parse. */
  lemma EntryExamples()
    ensures PortOfEntry("1") == Some(1) && PortOfEntry("2") == Some(2) && PortOfEntry("+3") == Some(3)
    ensures PortOfEntry("lo").None? && PortOfEntry("65536").None?
  {
    TooLargeForPort();
    ParseRejects("lo", U16_MAX);
    assert "+3"[1..] == "3";
  }

  lemma TooLargeForPort()
    ensures AllDigits("65536") && DigitsValue("65536") == 65536
  {
    DigitsSnoc("6", '5');
    assert "6" + ['5'] == "65";
    DigitsSnoc("65", '5');
    assert "65" + ['5'] == "655";
    DigitsSnoc("655", '3');
    assert "655" + ['3'] == "6553";
    DigitsSnoc("6553", '6');
    assert "6553" + ['6'] == "65536";
  }

  /** `ports/1`, `ports/2` and `ports/+3` are ports 1, 2 and 3 (`u16` parsing accepts
      a leading '+'); a name that is not a number or exceeds 65535 is skipped. */
  lemma PortNumbersExample()
    ensures PortNumbers(["1", "2", "lo", "65536", "+3"]) == [1, 2, 3]
  {
    EntryExamples();
    var e0: seq<string> := [];
    PortNumbersSnoc(e0, "1");
    var e1 := e0 + ["1"];
    PortNumbersSnoc(e1, "2");
    var e2 := e1 + ["2"];
    PortNumbersSnoc(e2, "lo");
    var e3 := e2 + ["lo"];
    PortNumbersSnoc(e3, "65536");
    var e4 := e3 + ["65536"];
    PortNumbersSnoc(e4, "+3");
    var e5 := e4 + ["+3"];
    assert PortNumbers(e5) == [1, 2, 3];
    assert e5 == ["1", "2", "lo", "65536", "+3"];
  }

  /** The ports an adapter directory lists: one per entry that parses as a `u16`. */
  function PortsOfDir(dir: AdapterDir): seq<PortInfo>
    requires AdapterFits(dir)
  {
    PortsFor(dir, if dir.portEntries.Some? then PortNumbers(dir.portEntries.value) else [])
  }

  /** The ports of the given numbers, each read from its directory. */
  function PortsFor(dir: AdapterDir, numbers: seq<u16>): seq<PortInfo>
    requires AdapterFits(dir)
  {
    seq(|numbers|, i requires 0 <= i < |numbers| => PortInfoOf(dir, numbers[i]))
  }

  lemma PortsForSnoc(dir: AdapterDir, numbers: seq<u16>, n: u16)
    requires AdapterFits(dir)
    ensures PortsFor(dir, numbers + [n]) == PortsFor(dir, numbers) + [PortInfoOf(dir, n)]
  {
  }

  /** A directory named "01" is listed as port 1, whose files are then read from the
      directory "1": with none of that name the port reads as an empty one. */
  lemma LeadingZeroReadsOtherDirectory(d: PortDir)
    requires DataFits(d.counters)
    ensures var dir := AdapterDir(Some(["01"]), map["01" := d]);
      AdapterFits(dir) && PortsOfDir(dir) == [PortInfo(1, Unknown, "", DefaultCounters())]
  {
    var dir := AdapterDir(Some(["01"]), map["01" := d]);
    LeadingZeroEntry();
    assert PortDirOf(dir, 1) == PortDir(None, None, None) by {
      assert NatToString(1) == "1" != "01";
    }
    assert ReadPortRate(None) == "" by {
      assert |Trim("")| == 0;
    }
    assert PortInfoOf(dir, 1) == PortInfo(1, Unknown, "", DefaultCounters());
  }

  /** The listing ["01"] holds port 1. */
  lemma LeadingZeroEntry()
    ensures PortNumbers(["01"]) == [1]
  {
    assert PortOfEntry("01") == Some(1) by {
      DigitsSnoc("0", '1');
      assert "0" + ['1'] == "01";
    }
    PortNumbersSnoc([], "01");
    assert [] + ["01"] == ["01"];
  }

  /** `create_adapter_info`: one port per entry of the `ports` directory whose name
      parses as a `u16`, in listing order. */
  method CreateAdapterInfo(name: string, dir: AdapterDir) returns (a: AdapterInfo)
    requires AdapterFits(dir)
    ensures a == AdapterInfo(name, PortsOfDir(dir))
  {
    var ports: seq<PortInfo> := [];
    if dir.portEntries.Some? {
      var entries := dir.portEntries.value;
      var i := 0;
      while i < |entries|
        invariant 0 <= i <= |entries|
        invariant ports == PortsFor(dir, PortNumbers(entries[..i]))
      {
        assert entries[..i + 1] == entries[..i] + [entries[i]];
        PortNumbersSnoc(entries[..i], entries[i]);
        var portNumber := PortOfEntry(entries[i]);
        if portNumber.Some? {
          var port := CreatePortInfo(dir, portNumber.value);
          PortsForSnoc(dir, PortNumbers(entries[..i]), portNumber.value);
          ports := ports + [port];
        }
        i := i + 1;
      }
      assert entries[..i] == entries;
    }
    a := AdapterInfo(name, ports);
  }

  // ---- Sorting by name ---------------------------------------------------------

  /** `str` ordering: lexicographic by character (UTF-8 byte order is code point order). */
  predicate NameLe(a: string, b: string)
    decreases |a|
  {
    a == [] || (b != [] && (a[0] < b[0] || (a[0] == b[0] && NameLe(a[1..], b[1..]))))
  }

  lemma {:induction false} NameLeTotal(a: string, b: string)
    ensures NameLe(a, b) || NameLe(b, a)
    decreases |a|
  {
    if a != [] && b != [] && a[0] == b[0] {
      NameLeTotal(a[1..], b[1..]);
    }
  }

  predicate SortedByName(s: seq<AdapterInfo>) {
    forall i :: 0 < i < |s| ==> NameLe(s[i - 1].name, s[i].name)
  }

  /** Inserts `x` before the first adapter whose name is not below it. */
  function InsertByName(x: AdapterInfo, s: seq<AdapterInfo>): (r: seq<AdapterInfo>)
    ensures multiset(r) == multiset(s) + multiset{x}
    ensures |r| == |s| + 1 && (r[0] == x || (s != [] && r[0] == s[0]))
  {
    if s == [] then [x]
    else if NameLe(x.name, s[0].name) then [x] + s
    else
      assert s == [s[0]] + s[1..];
      [s[0]] + InsertByName(x, s[1..])
  }

  /** Inserting into a sorted sequence keeps it sorted. */
  lemma {:induction false} InsertSorted(x: AdapterInfo, s: seq<AdapterInfo>)
    requires SortedByName(s)
    ensures SortedByName(InsertByName(x, s))
  {
    if s != [] && !NameLe(x.name, s[0].name) {
      NameLeTotal(x.name, s[0].name);
      InsertSorted(x, s[1..]);
      var rest := InsertByName(x, s[1..]);
      assert InsertByName(x, s) == [s[0]] + rest;
      assert NameLe(s[0].name, rest[0].name);
    }
  }

  /** The adapters in name order (the stable `sort_by` on names). */
  function SortByName(s: seq<AdapterInfo>): (r: seq<AdapterInfo>)
    ensures multiset(r) == multiset(s) && SortedByName(r)
  {
    if s == [] then []
    else
      assert s == [s[0]] + s[1..];
      InsertSorted(s[0], SortByName(s[1..]));
      InsertByName(s[0], SortByName(s[1..]))
  }

  // ---- Discovery ---------------------------------------------------------------

  predicate TreeFits(entries: seq<(string, AdapterDir)>) {
    forall i :: 0 <= i < |entries| ==> AdapterFits(entries[i].1)
  }

  function AdaptersOf(entries: seq<(string, AdapterDir)>): seq<AdapterInfo>
    requires TreeFits(entries)
  {
    seq(|entries|, i requires 0 <= i < |entries| => AdapterInfo(entries[i].0, PortsOfDir(entries[i].1)))
  }

  /** `discover_adapters`: one adapter per entry of the device directory (none when it
      cannot be read), sorted by name. */
  method DiscoverAdapters(root: Option<seq<(string, AdapterDir)>>) returns (adapters: seq<AdapterInfo>)
    requires root.Some? ==> TreeFits(root.value)
    ensures root.None? ==> adapters == []
    ensures root.Some? ==> adapters == SortByName(AdaptersOf(root.value))
    ensures root.Some? ==> SortedByName(adapters) && multiset(adapters) == multiset(AdaptersOf(root.value))
  {
    adapters := [];
    if root.None? {
      return;
    }
    var entries := root.value;
    var i := 0;
    while i < |entries|
      invariant 0 <= i <= |entries|
      invariant adapters == AdaptersOf(entries[..i])
    {
      var adapter := CreateAdapterInfo(entries[i].0, entries[i].1);
      adapters := adapters + [adapter];
      i := i + 1;
    }
    assert entries[..i] == entries;
    adapters := SortByName(adapters);
  }
}
