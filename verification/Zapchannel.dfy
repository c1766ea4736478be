/**
 Channel files, lib/libdvbcfg/dvbcfg_zapchannel.c: what a channel is printed as, and what a line is read as. The four
 kinds of line are told apart by substrings only.
 */
module Zapchannel {
  import opened ConfigText
  import opened Wrappers

  // The enumerations of lib/libdvbapi/dvbfe.h.
  const INVERSION_AUTO: int := 2
  const FEC_AUTO: int := 9

  const INVERSIONS: seq<Setting> :=
    [Setting("INVERSION_ON", 1), Setting("INVERSION_OFF", 0), Setting("INVERSION_AUTO", 2)]

  const FECS: seq<Setting> :=
    [Setting("FEC_1_2", 1), Setting("FEC_2_3", 2), Setting("FEC_3_4", 3), Setting("FEC_4_5", 4), Setting("FEC_5_6", 5),
     Setting("FEC_6_7", 6), Setting("FEC_7_8", 7), Setting("FEC_8_9", 8), Setting("FEC_AUTO", 9), Setting("FEC_NONE", 0)]

  const DVBC_MODULATIONS: seq<Setting> :=
    [Setting("QAM_16", 0), Setting("QAM_32", 1), Setting("QAM_64", 2), Setting("QAM_128", 3), Setting("QAM_256", 4),
     Setting("QAM_AUTO", 5)]

  const BANDWIDTHS: seq<Setting> :=
    [Setting("BANDWIDTH_6_MHZ", 2), Setting("BANDWIDTH_7_MHZ", 1), Setting("BANDWIDTH_8_MHZ", 0),
     Setting("BANDWIDTH_AUTO", 3)]

  const CONSTELLATIONS: seq<Setting> :=
    [Setting("QAM_16", 1), Setting("QAM_32", 2), Setting("QAM_64", 3), Setting("QAM_128", 4), Setting("QAM_256", 5),
     Setting("QPSK", 0), Setting("QAM_AUTO", 6)]

  const TRANSMISSION_MODES: seq<Setting> :=
    [Setting("TRANSMISSION_MODE_2K", 0), Setting("TRANSMISSION_MODE_8K", 1), Setting("TRANSMISSION_MODE_AUTO", 2)]

  const GUARD_INTERVALS: seq<Setting> :=
    [Setting("GUARD_INTERVAL_1_32", 0), Setting("GUARD_INTERVAL_1_16", 1), Setting("GUARD_INTERVAL_1_8", 2),
     Setting("GUARD_INTERVAL_1_4", 3), Setting("GUARD_INTERVAL_AUTO", 4)]

  const HIERARCHIES: seq<Setting> :=
    [Setting("HIERARCHY_1", 1), Setting("HIERARCHY_2", 2), Setting("HIERARCHY_4", 3), Setting("HIERARCHY_AUTO", 4),
     Setting("HIERARCHY_NONE", 0)]

  const ATSC_MODULATIONS: seq<Setting> :=
    [Setting("8VSB", 2), Setting("16VSB", 3), Setting("QAM_64", 0), Setting("QAM_256", 1)]

  /** The parameters of a channel that depend on the kind of frontend. */
  datatype Frontend =
    | Atsc(modulation: int)
    | Dvbc(symbolRate: int, fec: int, modulation: int)
    | Dvbs(polarization: char, switch: int, symbolRate: int, fec: int)
    | Dvbt(bandwidth: int, codeRateHP: int, codeRateLP: int, constellation: int, transmissionMode: int,
           guardInterval: int, hierarchy: int)

  datatype Channel = Channel(name: string, frequency: int, inversion: int, frontend: Frontend,
                             videoPid: int, audioPid: int, serviceId: int)

  function ToLower(c: char): char {
    if 'A' <= c <= 'Z' then (c as int + 32) as char else c
  }

  // ----- printing

  /** A setting without a name is a null pointer, which `printf` prints in this way. */
  function Name(value: int, settings: seq<Setting>): string {
    var name := LookupSetting(value, settings);
    if name.Some? then name.value else "(null)"
  }

  /** `%i` shows an unsigned field as a signed one. */
  function PrintUnsigned(u: int): string {
    PrintInt(Wrap32(u))
  }

  /** The fields between the name and the pids, in front of the rest of the line. */
  function PrintFrontend(c: Channel, rest: string): string {
    match c.frontend
    case Dvbs(_, _, _, _) => With(PrintUnsigned(c.frequency / 1000), PrintSettings(c, rest))
    case _ => With(PrintUnsigned(c.frequency), PrintSettings(c, rest))
  }

  /** The fields behind the frequency. */
  function PrintSettings(c: Channel, rest: string): string {
    match c.frontend
    case Atsc(modulation) => With(Name(modulation, ATSC_MODULATIONS), rest)
    case Dvbc(rate, fec, modulation) =>
      With(Name(c.inversion, INVERSIONS), With(PrintUnsigned(rate), With(Name(fec, FECS),
           With(Name(modulation, DVBC_MODULATIONS), rest))))
    case Dvbs(polarization, switch, rate, _) =>
      With([ToLower(polarization)], With(PrintInt(switch), With(PrintUnsigned(rate / 1000), rest)))
    case Dvbt(bandwidth, hp, lp, constellation, mode, guard, hierarchy) =>
      With(Name(c.inversion, INVERSIONS), With(Name(bandwidth, BANDWIDTHS), With(Name(hp, FECS), With(Name(lp, FECS),
           With(Name(constellation, CONSTELLATIONS), With(Name(mode, TRANSMISSION_MODES),
                With(Name(guard, GUARD_INTERVALS), With(Name(hierarchy, HIERARCHIES), rest))))))))
  }

  function PrintPids(c: Channel): string {
    With(PrintInt(c.videoPid), With(PrintInt(c.audioPid), PrintInt(c.serviceId)))
  }

  /** What `dvbcfg_zapchannel_save` prints for a channel, but for the newline at the end. */
  function PrintChannel(c: Channel): string {
    With(c.name, PrintFrontend(c, PrintPids(c)))
  }

  // ----- reading

  predicate StartsWith(t: string, p: string) {
    |p| <= |t| && t[..|p|] == p
  }

  /** `strstr` finds the pattern. */
  predicate Contains(t: string, p: string) {
    exists i :: 0 <= i <= |t| && StartsWith(t[i..], p)
  }

  datatype Kind = KAtsc | KDvbc | KDvbs | KDvbt

  /** The kind of a line, from what follows the frequency. */
  function Classify(t: string): Kind {
    if Contains(t, ":FEC_") then
      if Contains(t, ":HIERARCHY_") then KDvbt else KDvbc
    else if Contains(t, "VSB:") || Contains(t, "QAM_") then KAtsc
    else KDvbs
  }

  datatype Tuned = Tuned(frequency: int, inversion: int, frontend: Frontend)

  function ReadAtsc(frequency: int, t: string): Option<Got<Tuned>> {
    var modulation :- ParseSetting(t, ATSC_MODULATIONS);
    Some(Got(Tuned(frequency, INVERSION_AUTO, Atsc(modulation.value)), modulation.rest))
  }

  function ReadDvbc(frequency: int, t: string): Option<Got<Tuned>> {
    var inversion :- ParseSetting(t, INVERSIONS);
    var rate :- ParseInt(inversion.rest);
    var fec :- ParseSetting(rate.rest, FECS);
    var modulation :- ParseSetting(fec.rest, DVBC_MODULATIONS);
    Some(Got(Tuned(frequency, inversion.value, Dvbc(Unsigned32(rate.value), fec.value, modulation.value)), modulation.rest))
  }

  predicate IsPolarization(c: char) {
    c == 'h' || c == 'v' || c == 'l' || c == 'r'
  }

  function ReadDvbs(frequency: int, t: string): Option<Got<Tuned>> {
    var polarization :- ParseChar(t);
    if !IsPolarization(ToLower(polarization.value)) then None
    else
      var switch :- ParseInt(polarization.rest);
      var rate :- ParseInt(switch.rest);
      Some(Got(Tuned(Unsigned32(frequency * 1000), INVERSION_AUTO,
                     Dvbs(ToLower(polarization.value), switch.value, Unsigned32(rate.value * 1000), FEC_AUTO)), rate.rest))
  }

  function ReadDvbt(frequency: int, t: string): Option<Got<Tuned>> {
    var inversion :- ParseSetting(t, INVERSIONS);
    var bandwidth :- ParseSetting(inversion.rest, BANDWIDTHS);
    var hp :- ParseSetting(bandwidth.rest, FECS);
    var lp :- ParseSetting(hp.rest, FECS);
    var constellation :- ParseSetting(lp.rest, CONSTELLATIONS);
    var mode :- ParseSetting(constellation.rest, TRANSMISSION_MODES);
    var guard :- ParseSetting(mode.rest, GUARD_INTERVALS);
    var hierarchy :- ParseSetting(guard.rest, HIERARCHIES);
    Some(Got(Tuned(frequency, inversion.value,
                   Dvbt(bandwidth.value, hp.value, lp.value, constellation.value, mode.value, guard.value,
                        hierarchy.value)), hierarchy.rest))
  }

  function ReadFrontend(frequency: int, t: string): Option<Got<Tuned>> {
    match Classify(t)
    case KAtsc => ReadAtsc(frequency, t)
    case KDvbc => ReadDvbc(frequency, t)
    case KDvbs => ReadDvbs(frequency, t)
    case KDvbt => ReadDvbt(frequency, t)
  }

  /** The fields behind the name; a line without a service id gets 0. */
  function ReadBody(name: string, t: string): Option<Channel> {
    var frequency :- ParseInt(t);
    var tuned :- ReadFrontend(Unsigned32(frequency.value), frequency.rest);
    var video :- ParseInt(tuned.rest);
    var audio :- ParseInt(video.rest);
    var service := ParseInt(audio.rest);
    Some(Channel(name, tuned.value.frequency, tuned.value.inversion, tuned.value.frontend,
                 video.value, audio.value, if service.Some? then service.value.value else 0))
  }

  // ----- lines

  const NAME_SIZE: nat := 128

  /** Where the text of a line ends: at a NUL, at its newline, or at a comment. */
  function LineEnd(buf: string): (e: nat)
    ensures e <= |buf|
    ensures forall j :: 0 <= j < e ==> buf[j] != NUL && buf[j] != '\n' && buf[j] != '#'
    ensures e < |buf| ==> buf[e] == NUL || buf[e] == '\n' || buf[e] == '#'
    ensures NUL in buf ==> e < |buf|
  {
    if buf == "" || buf[0] == NUL || buf[0] == '\n' || buf[0] == '#' then 0 else 1 + LineEnd(buf[1..])
  }

  /**
   A line is read from a buffer that holds the line, its NUL, and whatever an earlier line has left behind it. The
   search for the colon after the name takes the NUL at the end of the text for one, since `strchr` finds it: a
   name without a colon is followed by whatever stands behind that NUL, such as the rest of a comment.
   */
  function ReadLine(buf: string): Option<Channel>
    requires NUL in buf
  {
    var e := LineEnd(buf);
    var stop := Find(buf[..e], ':');
    if stop + 1 > NAME_SIZE then None else ReadBody(buf[..stop], CString(buf[e := NUL], stop + 1))
  }

  // ----- which channels survive

  predicate IsInt32(v: int) {
    -0x8000_0000 <= v < 0x8000_0000
  }

  predicate IsUnsigned32(v: int) {
    0 <= v < 0x1_0000_0000
  }

  /** The widths of the fields in memory. */
  predicate InRange(c: Channel) {
    && IsUnsigned32(c.frequency) && IsInt32(c.videoPid) && IsInt32(c.audioPid) && IsInt32(c.serviceId)
    && (c.frontend.Dvbc? ==> IsUnsigned32(c.frontend.symbolRate))
    && (c.frontend.Dvbs? ==> IsUnsigned32(c.frontend.symbolRate) && IsInt32(c.frontend.switch))
  }

  predicate NameOk(name: string) {
    |name| < NAME_SIZE && Lacks(name, ':') && Lacks(name, '#') && Lacks(name, '\n') && Lacks(name, NUL)
  }

  /** The settings that are printed have names, and a polarization is one of the four. */
  predicate SettingsOk(c: Channel) {
    match c.frontend
    case Atsc(modulation) => Listed(modulation, ATSC_MODULATIONS)
    case Dvbc(_, fec, modulation) =>
      Listed(c.inversion, INVERSIONS) && Listed(fec, FECS) && Listed(modulation, DVBC_MODULATIONS)
    case Dvbs(polarization, _, _, _) => IsPolarization(ToLower(polarization))
    case Dvbt(bandwidth, hp, lp, constellation, mode, guard, hierarchy) =>
      && Listed(c.inversion, INVERSIONS) && Listed(bandwidth, BANDWIDTHS) && Listed(hp, FECS) && Listed(lp, FECS)
      && Listed(constellation, CONSTELLATIONS) && Listed(mode, TRANSMISSION_MODES) && Listed(guard, GUARD_INTERVALS)
      && Listed(hierarchy, HIERARCHIES)
  }

  /** DVB-S frequencies and symbol rates are written in thousands. */
  predicate ThousandsOk(c: Channel) {
    c.frontend.Dvbs? ==> c.frequency % 1000 == 0 && c.frontend.symbolRate % 1000 == 0
  }

  /** What a reader always sets: ATSC and DVB-S have no inversion in the file, DVB-S no code rate. */
  function Normal(c: Channel): Channel {
    match c.frontend
    case Atsc(_) => c.(inversion := INVERSION_AUTO)
    case Dvbs(polarization, switch, rate, _) =>
      c.(inversion := INVERSION_AUTO, frontend := Dvbs(ToLower(polarization), switch, rate, FEC_AUTO))
    case Dvbc(_, _, _) => c
    case Dvbt(_, _, _, _, _, _, _) => c
  }

  /** The channel with DVB-S values rounded down to thousands. */
  function Rounded(c: Channel): Channel {
    match c.frontend
    case Dvbs(polarization, switch, rate, fec) =>
      c.(frequency := c.frequency / 1000 * 1000, frontend := Dvbs(polarization, switch, rate / 1000 * 1000, fec))
    case _ => c
  }
}
