/** A saved channel is read back: the exact condition, and the file as a whole. */
module ZapRoundTrip {
  import opened ConfigText
  import opened Wrappers
  import opened Zapchannel
  import opened ZapTables

  // ----- one field

  lemma IntRoundTrip(v: int, rest: string)
    requires IsInt32(v)
    ensures ParseInt(With(PrintInt(v), rest)) == Some(Got(v, rest))
  {
    PrintedLacks(v, ':');
    ScanPrinted(v);
    hide PrintInt, ScanInt, With;
    FieldOf(PrintInt(v), rest);
  }

  lemma LastIntRoundTrip(v: int)
    requires IsInt32(v)
    ensures ParseInt(PrintInt(v)) == Some(Got(v, ""))
  {
    PrintedLacks(v, ':');
    ScanPrinted(v);
    hide PrintInt, ScanInt;
    LastField(PrintInt(v));
  }

  lemma UnsignedRoundTrip(u: int, rest: string)
    requires IsUnsigned32(u)
    ensures
      var r := ParseInt(With(PrintUnsigned(u), rest));
      r.Some? && r.value.rest == rest && Unsigned32(r.value.value) == u && (u < 0x8000_0000 ==> r.value.value == u)
  {
    UnsignedWrap(u);
    IntRoundTrip(Wrap32(u), rest);
  }

  /** A name from a sound table is a word, and is read back. */
  lemma SettingFieldRoundTrip(v: int, settings: seq<Setting>, rest: string)
    requires Sound(settings) && Listed(v, settings)
    ensures ParseSetting(With(Name(v, settings), rest), settings) == Some(Got(v, rest))
  {
    LookupIff(v, settings);
    var i := LookupIsListed(v, settings);
    SettingRoundTrip(v, settings);
    WordLacks(Name(v, settings), ':');
    hide Word, NamesDiffer, With;
    FieldOf(Name(v, settings), rest);
  }

  lemma WordLacks(t: string, c: char)
    requires Word(t) && !IsWordChar(c)
    ensures Lacks(t, c)
  {
  }

  // ----- the kinds of line, as the reader finds them

  lemma ReadAtscPrinted(c: Channel, rest: string)
    requires c.frontend.Atsc? && SettingsOk(c)
    ensures ReadAtsc(c.frequency, PrintSettings(c, rest))
         == Some(Got(Tuned(c.frequency, INVERSION_AUTO, c.frontend), rest))
  {
    AtscModulationsSound();
    hide Sound, ParseSetting, Name, With;
    SettingFieldRoundTrip(c.frontend.modulation, ATSC_MODULATIONS, rest);
  }

  lemma ReadDvbcPrinted(c: Channel, rest: string)
    requires c.frontend.Dvbc? && SettingsOk(c) && InRange(c)
    ensures ReadDvbc(c.frequency, PrintSettings(c, rest)) == Some(Got(Tuned(c.frequency, c.inversion, c.frontend), rest))
  {
    InversionsSound();
    FecsSound();
    DvbcModulationsSound();
    hide Sound, ParseSetting, ParseInt, Name, PrintUnsigned, With;
    var modulation := With(Name(c.frontend.modulation, DVBC_MODULATIONS), rest);
    var fec := With(Name(c.frontend.fec, FECS), modulation);
    SettingFieldRoundTrip(c.inversion, INVERSIONS, With(PrintUnsigned(c.frontend.symbolRate), fec));
    UnsignedRoundTrip(c.frontend.symbolRate, fec);
    SettingFieldRoundTrip(c.frontend.fec, FECS, modulation);
    SettingFieldRoundTrip(c.frontend.modulation, DVBC_MODULATIONS, rest);
  }

  lemma PolarizationField(p: char, rest: string)
    requires IsPolarization(p)
    ensures ParseChar(With([p], rest)) == Some(Got(p, rest)) && ToLower(p) == p
  {
    hide With;
    FieldOf([p], rest);
  }

  lemma Thousands(u: int)
    requires IsUnsigned32(u)
    ensures u / 1000 < 0x8000_0000 && Unsigned32(u / 1000 * 1000) == u / 1000 * 1000
  {
  }

  lemma ReadDvbsPrinted(c: Channel, rest: string)
    requires c.frontend.Dvbs? && SettingsOk(c) && InRange(c)
    ensures
      var d := c.frontend;
      ReadDvbs(c.frequency / 1000, PrintSettings(c, rest))
      == Some(Got(Tuned(c.frequency / 1000 * 1000, INVERSION_AUTO,
                        Dvbs(ToLower(d.polarization), d.switch, d.symbolRate / 1000 * 1000, FEC_AUTO)), rest))
  {
    var d := c.frontend;
    Thousands(c.frequency);
    Thousands(d.symbolRate);
    hide ParseInt, ParseChar, PrintInt, PrintUnsigned, With, Unsigned32, IsPolarization, ToLower;
    var rate := With(PrintUnsigned(d.symbolRate / 1000), rest);
    var switch := With(PrintInt(d.switch), rate);
    PolarizationField(ToLower(d.polarization), switch);
    IntRoundTrip(d.switch, rate);
    UnsignedRoundTrip(d.symbolRate / 1000, rest);
  }

  lemma ReadDvbtPrinted(c: Channel, rest: string)
    requires c.frontend.Dvbt? && SettingsOk(c)
    ensures ReadDvbt(c.frequency, PrintSettings(c, rest)) == Some(Got(Tuned(c.frequency, c.inversion, c.frontend), rest))
  {
    InversionsSound();
    BandwidthsSound();
    FecsSound();
    ConstellationsSound();
    TransmissionModesSound();
    GuardIntervalsSound();
    HierarchiesSound();
    hide Sound, ParseSetting, Name, Listed, With;
    var d := c.frontend;
    var hierarchy := With(Name(d.hierarchy, HIERARCHIES), rest);
    var guard := With(Name(d.guardInterval, GUARD_INTERVALS), hierarchy);
    var mode := With(Name(d.transmissionMode, TRANSMISSION_MODES), guard);
    var constellation := With(Name(d.constellation, CONSTELLATIONS), mode);
    var lp := With(Name(d.codeRateLP, FECS), constellation);
    var hp := With(Name(d.codeRateHP, FECS), lp);
    SettingFieldRoundTrip(c.inversion, INVERSIONS, With(Name(d.bandwidth, BANDWIDTHS), hp));
    SettingFieldRoundTrip(d.bandwidth, BANDWIDTHS, hp);
    SettingFieldRoundTrip(d.codeRateHP, FECS, lp);
    SettingFieldRoundTrip(d.codeRateLP, FECS, constellation);
    SettingFieldRoundTrip(d.constellation, CONSTELLATIONS, mode);
    SettingFieldRoundTrip(d.transmissionMode, TRANSMISSION_MODES, guard);
    SettingFieldRoundTrip(d.guardInterval, GUARD_INTERVALS, hierarchy);
    SettingFieldRoundTrip(d.hierarchy, HIERARCHIES, rest);
  }

  // ----- telling the kinds apart

  lemma NotContained(t: string, p: string, k: nat)
    requires k < |p| && Lacks(t, p[k])
    ensures !Contains(t, p)
  {
    forall i | 0 <= i <= |t|
      ensures !StartsWith(t[i..], p)
    {
      if |p| <= |t| - i {
        assert t[i..][..|p|][k] == t[i + k];
      }
    }
  }

  lemma ContainedBehind(f: string, rest: string, p: string)
    requires Contains(rest, p)
    ensures Contains(With(f, rest), p)
  {
    var i :| 0 <= i <= |rest| && StartsWith(rest[i..], p);
    assert With(f, rest)[|f| + 1 + i..] == rest[i..];
  }

  /** A field that starts with `p`, behind another field. */
  lemma ContainedField(a: string, f: string, more: string, p: string)
    requires StartsWith(f, p)
    ensures Contains(With(a, With(f, more)), ":" + p)
  {
    var t := With(a, With(f, more));
    assert t[|a|..][..|":" + p|] == ":" + p;
  }

  lemma ContainedFirst(f: string, more: string, p: string)
    requires StartsWith(f, p)
    ensures Contains(With(f, more), p)
  {
    assert With(f, more)[0..][..|p|] == p;
  }

  lemma FieldLacks(f: string, more: string, c: char)
    requires Lacks(f, c) && Lacks(more, c) && c != ':'
    ensures Lacks(With(f, more), c)
  {
  }

  lemma PidsLack(c: Channel, x: char)
    requires x != ':' && x != '-' && !('0' <= x <= '9')
    ensures Lacks(PrintPids(c), x)
  {
    PrintedLacks(c.videoPid, x);
    PrintedLacks(c.audioPid, x);
    PrintedLacks(c.serviceId, x);
    hide PrintInt, With, Lacks;
    FieldLacks(PrintInt(c.audioPid), PrintInt(c.serviceId), x);
    FieldLacks(PrintInt(c.videoPid), With(PrintInt(c.audioPid), PrintInt(c.serviceId)), x);
  }

  lemma NameLacks(v: int, settings: seq<Setting>, c: char)
    requires NamesLack(settings, c) && Listed(v, settings)
    ensures Lacks(Name(v, settings), c)
  {
    LookupIff(v, settings);
    var i := LookupIsListed(v, settings);
  }

  lemma NameStarts(v: int, settings: seq<Setting>, p: string)
    requires NamesStart(settings, p) && Listed(v, settings)
    ensures StartsWith(Name(v, settings), p)
  {
    LookupIff(v, settings);
    var i := LookupIsListed(v, settings);
  }

  lemma AtscClassified(c: Channel, rest: string)
    requires c.frontend.Atsc? && SettingsOk(c) && Lacks(rest, 'F')
    ensures Classify(PrintSettings(c, rest)) == KAtsc
  {
    var name := Name(c.frontend.modulation, ATSC_MODULATIONS);
    LookupIff(c.frontend.modulation, ATSC_MODULATIONS);
    var i := LookupIsListed(c.frontend.modulation, ATSC_MODULATIONS);
    AtscMarked(i);
    AtscLackF();
    NameLacks(c.frontend.modulation, ATSC_MODULATIONS, 'F');
    hide NamesLack, Listed, With, Lacks, Contains, StartsWith;
    FieldLacks(name, rest, 'F');
    NotContained(With(name, rest), ":FEC_", 1);
    if StartsWith(name, "QAM_") {
      ContainedFirst(name, rest, "QAM_");
    } else {
      var k :| 0 <= k <= |name| && name[k..] == "VSB";
      VsbContained(name, k, rest);
    }
  }

  lemma VsbContained(name: string, k: nat, rest: string)
    requires k <= |name| && name[k..] == "VSB"
    ensures Contains(With(name, rest), "VSB:")
  {
    var t := With(name, rest);
    assert t[k..] == "VSB" + ":" + rest;
    assert t[k..][..4] == "VSB:";
  }

  lemma DvbcClassified(c: Channel, rest: string)
    requires c.frontend.Dvbc? && SettingsOk(c) && InRange(c) && Lacks(rest, 'H')
    ensures Classify(PrintSettings(c, rest)) == KDvbc
  {
    var d := c.frontend;
    FecsStart();
    NameStarts(d.fec, FECS, "FEC_");
    DvbcLackH();
    FecsLackH();
    NameLacks(c.inversion, INVERSIONS, 'H');
    NameLacks(d.fec, FECS, 'H');
    NameLacks(d.modulation, DVBC_MODULATIONS, 'H');
    PrintedLacks(Wrap32(d.symbolRate), 'H');
    hide NamesLack, NamesStart, Listed, Name, With, Lacks, Contains, StartsWith;
    DvbcText(Name(c.inversion, INVERSIONS), PrintUnsigned(d.symbolRate), Name(d.fec, FECS),
             Name(d.modulation, DVBC_MODULATIONS), rest);
  }

  lemma DvbcText(inversion: string, rate: string, fec: string, modulation: string, rest: string)
    requires Lacks(inversion, 'H') && Lacks(rate, 'H') && Lacks(fec, 'H') && Lacks(modulation, 'H') && Lacks(rest, 'H')
    requires StartsWith(fec, "FEC_")
    ensures Classify(With(inversion, With(rate, With(fec, With(modulation, rest))))) == KDvbc
  {
    hide With, Lacks, Contains, StartsWith;
    var t3 := With(modulation, rest);
    var t2 := With(fec, t3);
    var t1 := With(rate, t2);
    FieldLacks(modulation, rest, 'H');
    FieldLacks(fec, t3, 'H');
    FieldLacks(rate, t2, 'H');
    FieldLacks(inversion, t1, 'H');
    NotContained(With(inversion, t1), ":HIERARCHY_", 1);
    ContainedField(rate, fec, t3, "FEC_");
    assert ":" + "FEC_" == ":FEC_";
    ContainedBehind(inversion, t1, ":FEC_");
  }

  lemma DvbsClassified(c: Channel, rest: string)
    requires c.frontend.Dvbs? && SettingsOk(c) && InRange(c) && Lacks(rest, '_') && Lacks(rest, 'S')
    ensures Classify(PrintSettings(c, rest)) == KDvbs
  {
    DvbsLacks(c, rest, '_');
    DvbsLacks(c, rest, 'S');
    var t := PrintSettings(c, rest);
    hide PrintSettings, Lacks, Contains;
    NotContained(t, ":FEC_", 4);
    NotContained(t, "VSB:", 1);
    NotContained(t, "QAM_", 3);
  }

  lemma DvbsLacks(c: Channel, rest: string, x: char)
    requires c.frontend.Dvbs? && SettingsOk(c) && (x == '_' || x == 'S') && Lacks(rest, x)
    ensures Lacks(PrintSettings(c, rest), x)
  {
    var d := c.frontend;
    PrintedLacks(Wrap32(d.symbolRate / 1000), x);
    PrintedLacks(d.switch, x);
    assert Lacks([ToLower(d.polarization)], x);
    hide With, Lacks, PrintInt;
    var rate := With(PrintUnsigned(d.symbolRate / 1000), rest);
    FieldLacks(PrintUnsigned(d.symbolRate / 1000), rest, x);
    FieldLacks(PrintInt(d.switch), rate, x);
    FieldLacks([ToLower(d.polarization)], With(PrintInt(d.switch), rate), x);
  }

  lemma DvbtClassified(c: Channel, rest: string)
    requires c.frontend.Dvbt? && SettingsOk(c)
    ensures Classify(PrintSettings(c, rest)) == KDvbt
  {
    FecsStart();
    HierarchiesStart();
    var d := c.frontend;
    NameStarts(d.codeRateHP, FECS, "FEC_");
    NameStarts(d.hierarchy, HIERARCHIES, "HIERARCHY_");
    hide NamesStart, Listed, Name, With, Contains, StartsWith;
    DvbtText(Name(c.inversion, INVERSIONS), Name(d.bandwidth, BANDWIDTHS), Name(d.codeRateHP, FECS),
             Name(d.codeRateLP, FECS), Name(d.constellation, CONSTELLATIONS), Name(d.transmissionMode, TRANSMISSION_MODES),
             Name(d.guardInterval, GUARD_INTERVALS), Name(d.hierarchy, HIERARCHIES), rest);
  }

  lemma DvbtText(inversion: string, bandwidth: string, hp: string, lp: string, constellation: string,
                                    mode: string, guard: string, hierarchy: string, rest: string)
    requires StartsWith(hp, "FEC_") && StartsWith(hierarchy, "HIERARCHY_")
    ensures Classify(With(inversion, With(bandwidth, With(hp, With(lp, With(constellation, With(mode, With(guard,
                     With(hierarchy, rest))))))))) == KDvbt
  {
    hide With, Contains, StartsWith;
    assert ":" + "FEC_" == ":FEC_" && ":" + "HIERARCHY_" == ":HIERARCHY_";
    var t7 := With(guard, With(hierarchy, rest));
    var t6 := With(mode, t7);
    var t5 := With(constellation, t6);
    var t4 := With(lp, t5);
    var t3 := With(hp, t4);
    ContainedField(bandwidth, hp, t4, "FEC_");
    ContainedBehind(inversion, With(bandwidth, t3), ":FEC_");
    ContainedField(guard, hierarchy, rest, "HIERARCHY_");
    ContainedBehind(mode, t7, ":HIERARCHY_");
    ContainedBehind(constellation, t6, ":HIERARCHY_");
    ContainedBehind(lp, t5, ":HIERARCHY_");
    ContainedBehind(hp, t4, ":HIERARCHY_");
    ContainedBehind(bandwidth, t3, ":HIERARCHY_");
    ContainedBehind(inversion, With(bandwidth, t3), ":HIERARCHY_");
  }

  // ----- one line

  /** What is printed of the frequency. */
  function PrintedFrequency(c: Channel): int {
    if c.frontend.Dvbs? then c.frequency / 1000 else c.frequency
  }

  /**
   What a reader makes of the printed frontend: inversion and code rate as always set, values in thousands rounded.
   */
  function TunedOf(c: Channel): Tuned {
    var r := Rounded(Normal(c));
    Tuned(r.frequency, r.inversion, r.frontend)
  }

  lemma ReadFrontendPrinted(c: Channel, rest: string)
    requires InRange(c) && SettingsOk(c) && Lacks(rest, 'F') && Lacks(rest, 'H') && Lacks(rest, 'S') && Lacks(rest, '_')
    ensures ReadFrontend(PrintedFrequency(c), PrintSettings(c, rest)) == Some(Got(TunedOf(c), rest))
  {
    hide PrintSettings, Classify, ReadAtsc, ReadDvbc, ReadDvbs, ReadDvbt, Lacks, SettingsOk;
    match c.frontend {
      case Atsc(_) =>
        AtscClassified(c, rest);
        ReadAtscPrinted(c, rest);
      case Dvbc(_, _, _) =>
        DvbcClassified(c, rest);
        ReadDvbcPrinted(c, rest);
      case Dvbs(_, _, _, _) =>
        DvbsClassified(c, rest);
        ReadDvbsPrinted(c, rest);
      case Dvbt(_, _, _, _, _, _, _) =>
        DvbtClassified(c, rest);
        ReadDvbtPrinted(c, rest);
    }
  }

  lemma PidsRoundTrip(c: Channel)
    requires InRange(c)
    ensures
      var video := ParseInt(PrintPids(c));
      && video.Some? && video.value.value == c.videoPid
      && var audio := ParseInt(video.value.rest);
         && audio.Some? && audio.value.value == c.audioPid
         && ParseInt(audio.value.rest) == Some(Got(c.serviceId, ""))
  {
    hide PrintInt, ParseInt, With;
    IntRoundTrip(c.videoPid, With(PrintInt(c.audioPid), PrintInt(c.serviceId)));
    IntRoundTrip(c.audioPid, PrintInt(c.serviceId));
    LastIntRoundTrip(c.serviceId);
  }

  lemma FrequencyRoundTrip(c: Channel, rest: string)
    requires InRange(c)
    ensures
      var r := ParseInt(PrintFrontend(c, rest));
      r.Some? && r.value.rest == PrintSettings(c, rest) && Unsigned32(r.value.value) == PrintedFrequency(c)
  {
    hide PrintSettings, ParseInt, With, PrintUnsigned;
    UnsignedRoundTrip(PrintedFrequency(c), PrintSettings(c, rest));
  }

  lemma BodyRoundTrip(c: Channel)
    requires InRange(c) && SettingsOk(c)
    ensures ReadBody(c.name, PrintFrontend(c, PrintPids(c))) == Some(Rounded(Normal(c)))
  {
    var pids := PrintPids(c);
    PidsLack(c, 'F');
    PidsLack(c, 'H');
    PidsLack(c, 'S');
    PidsLack(c, '_');
    FrequencyRoundTrip(c, pids);
    ReadFrontendPrinted(c, pids);
    PidsRoundTrip(c);
    hide PrintFrontend, PrintSettings, PrintPids, ParseInt, ReadFrontend, Lacks, SettingsOk;
  }

  lemma TwoPidsLack(v: int, a: int, x: char)
    requires x in {'F', 'H', 'S', '_'}
    ensures Lacks(PrintInt(v), x) && Lacks(With(PrintInt(v), PrintInt(a)), x)
  {
    PrintedLacks(v, x);
    PrintedLacks(a, x);
  }

  /** The frontend part of a printed line is read as what was printed, whatever numbers follow. */
  lemma FrontendOf(c: Channel, rest: string)
    requires InRange(c) && SettingsOk(c)
    requires Lacks(rest, 'F') && Lacks(rest, 'H') && Lacks(rest, 'S') && Lacks(rest, '_')
    ensures
      var r := Rounded(Normal(c));
      var f := ParseInt(PrintFrontend(c, rest));
      && f.Some?
      && ReadFrontend(Unsigned32(f.value.value), f.value.rest) == Some(Got(Tuned(r.frequency, r.inversion, r.frontend), rest))
  {
    FrequencyRoundTrip(c, rest);
    ReadFrontendPrinted(c, rest);
    hide PrintFrontend, PrintSettings, ParseInt, ReadFrontend, Lacks, SettingsOk;
  }

  /** A line that ends behind the audio pid has the service id 0; one that ends before it has no channel. */
  lemma MissingFields(c: Channel)
    requires InRange(c) && SettingsOk(c)
    ensures ReadBody(c.name, PrintFrontend(c, With(PrintInt(c.videoPid), PrintInt(c.audioPid))))
         == Some(Rounded(Normal(c)).(serviceId := 0))
    ensures ReadBody(c.name, PrintFrontend(c, PrintInt(c.videoPid))) == None
  {
    var (v, a) := (PrintInt(c.videoPid), PrintInt(c.audioPid));
    TwoPidsLack(c.videoPid, c.audioPid, 'F');
    TwoPidsLack(c.videoPid, c.audioPid, 'H');
    TwoPidsLack(c.videoPid, c.audioPid, 'S');
    TwoPidsLack(c.videoPid, c.audioPid, '_');
    FrontendOf(c, With(v, a));
    FrontendOf(c, v);
    IntRoundTrip(c.videoPid, a);
    LastIntRoundTrip(c.videoPid);
    LastIntRoundTrip(c.audioPid);
    NoInt();
    hide PrintFrontend, ParseInt, ReadFrontend, Lacks, SettingsOk, PrintInt, With;
  }

  lemma NoInt()
    ensures ParseInt("") == None
  {
  }

  lemma SoundNameLacks(v: int, settings: seq<Setting>, x: char)
    requires Sound(settings) && Listed(v, settings) && !IsWordChar(x)
    ensures Lacks(Name(v, settings), x)
  {
    LookupIff(v, settings);
    var i := LookupIsListed(v, settings);
    WordLacks(Name(v, settings), x);
  }

  /** A character that ends a line. */
  predicate EndsLine(x: char) {
    x == NUL || x == '\n' || x == '#'
  }

  lemma NumberLacks(v: int, x: char)
    requires EndsLine(x)
    ensures Lacks(PrintInt(v), x) && Lacks(PrintUnsigned(v), x)
  {
    PrintedLacks(v, x);
    PrintedLacks(Wrap32(v), x);
  }

  lemma DvbtLacks(c: Channel, rest: string, x: char)
    requires c.frontend.Dvbt? && SettingsOk(c) && EndsLine(x) && Lacks(rest, x)
    ensures Lacks(PrintSettings(c, rest), x)
  {
    InversionsSound();
    BandwidthsSound();
    FecsSound();
    ConstellationsSound();
    TransmissionModesSound();
    GuardIntervalsSound();
    HierarchiesSound();
    hide Sound, Listed, With, Lacks, Name;
    var d := c.frontend;
    SoundNameLacks(c.inversion, INVERSIONS, x);
    SoundNameLacks(d.bandwidth, BANDWIDTHS, x);
    SoundNameLacks(d.codeRateHP, FECS, x);
    SoundNameLacks(d.codeRateLP, FECS, x);
    SoundNameLacks(d.constellation, CONSTELLATIONS, x);
    SoundNameLacks(d.transmissionMode, TRANSMISSION_MODES, x);
    SoundNameLacks(d.guardInterval, GUARD_INTERVALS, x);
    SoundNameLacks(d.hierarchy, HIERARCHIES, x);
    AllLack(Name(c.inversion, INVERSIONS), Name(d.bandwidth, BANDWIDTHS), Name(d.codeRateHP, FECS),
            Name(d.codeRateLP, FECS), Name(d.constellation, CONSTELLATIONS), Name(d.transmissionMode, TRANSMISSION_MODES),
            Name(d.guardInterval, GUARD_INTERVALS), Name(d.hierarchy, HIERARCHIES), rest, x);
  }

  lemma AllLack(inversion: string, bandwidth: string, hp: string, lp: string, constellation: string,
                                   mode: string, guard: string, hierarchy: string, rest: string, x: char)
    requires Lacks(inversion, x) && Lacks(bandwidth, x) && Lacks(hp, x) && Lacks(lp, x) && Lacks(constellation, x)
    requires Lacks(mode, x) && Lacks(guard, x) && Lacks(hierarchy, x) && Lacks(rest, x) && x != ':'
    ensures Lacks(With(inversion, With(bandwidth, With(hp, With(lp, With(constellation, With(mode, With(guard,
                  With(hierarchy, rest)))))))), x)
  {
    hide With, Lacks;
    var t8 := With(hierarchy, rest);
    var t7 := With(guard, t8);
    var t6 := With(mode, t7);
    var t5 := With(constellation, t6);
    var t4 := With(lp, t5);
    var t3 := With(hp, t4);
    FieldLacks(hierarchy, rest, x);
    FieldLacks(guard, t8, x);
    FieldLacks(mode, t7, x);
    FieldLacks(constellation, t6, x);
    FieldLacks(lp, t5, x);
    FieldLacks(hp, t4, x);
    FieldLacks(bandwidth, t3, x);
    FieldLacks(inversion, With(bandwidth, t3), x);
  }

  lemma DvbcLacks(c: Channel, rest: string, x: char)
    requires c.frontend.Dvbc? && SettingsOk(c) && EndsLine(x) && Lacks(rest, x)
    ensures Lacks(PrintSettings(c, rest), x)
  {
    InversionsSound();
    FecsSound();
    DvbcModulationsSound();
    hide Sound, Listed, With, Lacks, Name, PrintUnsigned;
    var d := c.frontend;
    SoundNameLacks(c.inversion, INVERSIONS, x);
    SoundNameLacks(d.fec, FECS, x);
    SoundNameLacks(d.modulation, DVBC_MODULATIONS, x);
    NumberLacks(d.symbolRate, x);
    var t3 := With(Name(d.modulation, DVBC_MODULATIONS), rest);
    var t2 := With(Name(d.fec, FECS), t3);
    FieldLacks(Name(d.modulation, DVBC_MODULATIONS), rest, x);
    FieldLacks(Name(d.fec, FECS), t3, x);
    FieldLacks(PrintUnsigned(d.symbolRate), t2, x);
    FieldLacks(Name(c.inversion, INVERSIONS), With(PrintUnsigned(d.symbolRate), t2), x);
  }

  lemma SatelliteLacks(c: Channel, rest: string, x: char)
    requires c.frontend.Dvbs? && SettingsOk(c) && EndsLine(x) && Lacks(rest, x)
    ensures Lacks(PrintSettings(c, rest), x)
  {
    var d := c.frontend;
    NumberLacks(d.symbolRate / 1000, x);
    NumberLacks(d.switch, x);
    assert Lacks([ToLower(d.polarization)], x);
    hide With, Lacks, PrintInt, PrintUnsigned;
    var rate := With(PrintUnsigned(d.symbolRate / 1000), rest);
    FieldLacks(PrintUnsigned(d.symbolRate / 1000), rest, x);
    FieldLacks(PrintInt(d.switch), rate, x);
    FieldLacks([ToLower(d.polarization)], With(PrintInt(d.switch), rate), x);
  }

  lemma SettingsLack(c: Channel, rest: string, x: char)
    requires SettingsOk(c) && EndsLine(x) && Lacks(rest, x)
    ensures Lacks(PrintSettings(c, rest), x)
  {
    match c.frontend
    case Atsc(modulation) =>
      AtscModulationsSound();
      hide Sound, With, Lacks, Name;
      SoundNameLacks(modulation, ATSC_MODULATIONS, x);
      FieldLacks(Name(modulation, ATSC_MODULATIONS), rest, x);
    case Dvbc(_, _, _) => DvbcLacks(c, rest, x);
    case Dvbs(_, _, _, _) => SatelliteLacks(c, rest, x);
    case Dvbt(_, _, _, _, _, _, _) => DvbtLacks(c, rest, x);
  }

  /** Nothing behind the name ends the line. */
  lemma FrontendLacks(c: Channel, x: char)
    requires SettingsOk(c) && EndsLine(x)
    ensures Lacks(PrintFrontend(c, PrintPids(c)), x)
  {
    PidsLack(c, x);
    SettingsLack(c, PrintPids(c), x);
    NumberLacks(PrintedFrequency(c), x);
    hide SettingsOk, PrintSettings, PrintPids, PrintUnsigned, With, Lacks;
    FieldLacks(PrintUnsigned(PrintedFrequency(c)), PrintSettings(c, PrintPids(c)), x);
  }

  lemma LineEndIs(buf: string, e: nat)
    requires e < |buf| && EndsLine(buf[e]) && forall j :: 0 <= j < e ==> !EndsLine(buf[j])
    ensures LineEnd(buf) == e
  {
  }

  lemma NoEnds(t: string)
    requires Lacks(t, NUL) && Lacks(t, '\n') && Lacks(t, '#')
    ensures forall j :: 0 <= j < |t| ==> !EndsLine(t[j])
  {
  }

  /** A line as `getline` leaves it in its buffer, and what may stand behind it. */
  function Buffer(line: string, stale: string): (buf: string)
    ensures NUL in buf
  {
    line + [NUL] + stale
  }

  lemma LineEndsBehind(t: string, stale: string)
    requires Lacks(t, NUL) && Lacks(t, '\n') && Lacks(t, '#')
    ensures LineEnd(Buffer(t + "\n", stale)) == |t| && Buffer(t + "\n", stale) == t + (['\n', NUL] + stale)
  {
    var buf := Buffer(t + "\n", stale);
    assert buf == t + (['\n', NUL] + stale);
    NoEnds(t);
    assert forall j :: 0 <= j < |t| ==> buf[j] == t[j];
    LineEndIs(buf, |t|);
  }

  lemma NameInFront(name: string, body: string, more: string)
    requires Lacks(name, ':')
    ensures
      var (t, buf) := (With(name, body), With(name, body) + more);
      buf[..|t|] == t && Find(t, ':') == |name| && buf[..|name|] == name
  {
    var t := With(name, body);
    FindIs(t, ':', |name|);
    assert (t + more)[..|t|] == t;
    assert (t + more)[..|name|] == name;
  }

  /** The name and the text behind it are what the reader takes out of a printed line. */
  lemma ReadNamed(name: string, body: string, stale: string)
    requires NameOk(name) && Lacks(body, NUL) && Lacks(body, '\n') && Lacks(body, '#')
    ensures ReadLine(Buffer(With(name, body) + "\n", stale)) == ReadBody(name, body)
  {
    var (t, more) := (With(name, body), ['\n', NUL] + stale);
    FieldLacks(name, body, NUL);
    FieldLacks(name, body, '\n');
    FieldLacks(name, body, '#');
    LineEndsBehind(t, stale);
    NameInFront(name, body, more);
    TextBehind(name, body, more);
    CStringIs((t + more)[|t| := NUL], |name| + 1, body, more[1..]);
    hide ReadBody, LineEnd, Find, CString, With, Buffer, Lacks;
  }

  lemma TextBehind(name: string, body: string, more: string)
    requires more != []
    ensures (With(name, body) + more)[|With(name, body)| := NUL][|name| + 1..] == body + [NUL] + more[1..]
  {
    var t := With(name, body);
    assert (t + more)[|t| := NUL] == (name + ":") + (body + [NUL] + more[1..]);
    Behind(name + ":", body + [NUL] + more[1..]);
  }

  lemma Behind(front: string, rest: string)
    ensures (front + rest)[|front|..] == rest
  {
  }

  /** A printed line is read as the channel, normalised, with DVB-S values rounded down to thousands. */
  lemma LineRead(c: Channel, stale: string)
    requires InRange(c) && NameOk(c.name) && SettingsOk(c)
    ensures ReadLine(Buffer(PrintChannel(c) + "\n", stale)) == Some(Rounded(Normal(c)))
  {
    FrontendLacks(c, NUL);
    FrontendLacks(c, '\n');
    FrontendLacks(c, '#');
    hide PrintFrontend, PrintPids, ReadBody, ReadLine, SettingsOk, NameOk, Lacks;
    ReadNamed(c.name, PrintFrontend(c, PrintPids(c)), stale);
    BodyRoundTrip(c);
  }

  // ----- what any line can be read as

  /** What a reader can produce: in range, with named settings, and normal. */
  predicate Producible(t: Tuned) {
    var c := Channel("", t.frequency, t.inversion, t.frontend, 0, 0, 0);
    InRange(c) && SettingsOk(c) && Normal(c) == c
  }

  lemma SettingListed(t: string, settings: seq<Setting>)
    requires ParseSetting(t, settings).Some?
    ensures Listed(ParseSetting(t, settings).value.value, settings)
  {
    ValueIsListed(Field(t), settings);
  }

  lemma AtscProducible(frequency: int, t: string)
    requires IsUnsigned32(frequency) && ReadAtsc(frequency, t).Some?
    ensures Producible(ReadAtsc(frequency, t).value.value)
  {
    SettingListed(t, ATSC_MODULATIONS);
  }

  lemma DvbcProducible(frequency: int, t: string)
    requires IsUnsigned32(frequency) && ReadDvbc(frequency, t).Some?
    ensures Producible(ReadDvbc(frequency, t).value.value)
  {
    hide ParseSetting, ParseInt, Listed;
    var inversion := ParseSetting(t, INVERSIONS).value;
    var rate := ParseInt(inversion.rest).value;
    var fec := ParseSetting(rate.rest, FECS).value;
    SettingListed(t, INVERSIONS);
    SettingListed(rate.rest, FECS);
    SettingListed(fec.rest, DVBC_MODULATIONS);
  }

  lemma IntInRange(t: string)
    requires ParseInt(t).Some?
    ensures IsInt32(ParseInt(t).value.value)
  {
  }

  lemma DvbsProducible(frequency: int, t: string)
    requires IsUnsigned32(frequency) && ReadDvbs(frequency, t).Some?
    ensures Producible(ReadDvbs(frequency, t).value.value)
  {
    IntInRange(ParseChar(t).value.rest);
    hide ParseInt, ParseChar;
  }

  lemma DvbtProducible(frequency: int, t: string)
    requires IsUnsigned32(frequency) && ReadDvbt(frequency, t).Some?
    ensures Producible(ReadDvbt(frequency, t).value.value)
  {
    hide ParseSetting, Listed;
    var inversion := ParseSetting(t, INVERSIONS).value;
    var bandwidth := ParseSetting(inversion.rest, BANDWIDTHS).value;
    var hp := ParseSetting(bandwidth.rest, FECS).value;
    var lp := ParseSetting(hp.rest, FECS).value;
    var constellation := ParseSetting(lp.rest, CONSTELLATIONS).value;
    var mode := ParseSetting(constellation.rest, TRANSMISSION_MODES).value;
    var guard := ParseSetting(mode.rest, GUARD_INTERVALS).value;
    SettingListed(t, INVERSIONS);
    SettingListed(inversion.rest, BANDWIDTHS);
    SettingListed(bandwidth.rest, FECS);
    SettingListed(hp.rest, FECS);
    SettingListed(lp.rest, CONSTELLATIONS);
    SettingListed(constellation.rest, TRANSMISSION_MODES);
    SettingListed(mode.rest, GUARD_INTERVALS);
    SettingListed(guard.rest, HIERARCHIES);
  }

  lemma FrontendProducible(frequency: int, t: string)
    requires IsUnsigned32(frequency) && ReadFrontend(frequency, t).Some?
    ensures Producible(ReadFrontend(frequency, t).value.value)
  {
    hide Producible, ReadAtsc, ReadDvbc, ReadDvbs, ReadDvbt;
    match Classify(t)
    case KAtsc => AtscProducible(frequency, t);
    case KDvbc => DvbcProducible(frequency, t);
    case KDvbs => DvbsProducible(frequency, t);
    case KDvbt => DvbtProducible(frequency, t);
  }

  lemma BodyProducible(name: string, t: string)
    requires ReadBody(name, t).Some?
    ensures var c := ReadBody(name, t).value;
      c.name == name && InRange(c) && SettingsOk(c) && Normal(c) == c
  {
    var frequency := ParseInt(t).value;
    var tuned := ReadFrontend(Unsigned32(frequency.value), frequency.rest).value;
    var video := ParseInt(tuned.rest).value;
    var audio := ParseInt(video.rest).value;
    FrontendProducible(Unsigned32(frequency.value), frequency.rest);
    IntInRange(tuned.rest);
    IntInRange(video.rest);
    if ParseInt(audio.rest).Some? {
      IntInRange(audio.rest);
    }
    hide ParseInt, ReadFrontend;
  }

  lemma NameIsClean(buf: string, e: nat, stop: nat)
    requires NUL in buf && e == LineEnd(buf) && stop == Find(buf[..e], ':') && stop < NAME_SIZE
    ensures NameOk(buf[..stop])
  {
    var name := buf[..stop];
    forall j | 0 <= j < |name|
      ensures name[j] != ':' && name[j] != '#' && name[j] != '\n' && name[j] != NUL
    {
      assert name[j] == buf[j] == buf[..e][j];
    }
  }

  lemma LineParts(buf: string) returns (e: nat, stop: nat)
    requires NUL in buf && ReadLine(buf).Some?
    ensures e == LineEnd(buf) < |buf| && stop == Find(buf[..e], ':') <= e && stop < NAME_SIZE
    ensures ReadLine(buf) == ReadBody(buf[..stop], CString(buf[e := NUL], stop + 1))
  {
    hide ReadBody, CString;
    e := LineEnd(buf);
    stop := Find(buf[..e], ':');
  }

  /** Whatever stands in a buffer, a channel that is read from it has a clean name and named settings. */
  lemma LineProducible(buf: string)
    requires NUL in buf && ReadLine(buf).Some?
    ensures var c := ReadLine(buf).value;
      NameOk(c.name) && InRange(c) && SettingsOk(c) && Normal(c) == c
  {
    hide *;
    var e, stop := LineParts(buf);
    NameIsClean(buf, e, stop);
    BodyProducible(buf[..stop], CString(buf[e := NUL], stop + 1));
  }

  // ----- the round trip

  predicate Saveable(c: Channel) {
    NameOk(c.name) && SettingsOk(c) && ThousandsOk(c)
  }

  /** Which names a line can hold. */
  lemma NameOkIff(name: string)
    ensures NameOk(name) <==> |name| <= 127 && forall i :: 0 <= i < |name| ==> name[i] !in {':', '#', '\n', '\0'}
  {
  }

  /** A polarization is one of four letters, in either case, and becomes a small one. */
  lemma PolarizationIff(p: char)
    ensures IsPolarization(ToLower(p)) <==> p in {'h', 'v', 'l', 'r', 'H', 'V', 'L', 'R'}
    ensures ToLower('H') == ToLower('h') == 'h' && ToLower('V') == ToLower('v') == 'v'
    ensures ToLower('L') == ToLower('l') == 'l' && ToLower('R') == ToLower('r') == 'r'
  {
  }

  /** What a line cannot say is set to automatic: 2 for the inversion, 9 for the code rate of DVB-S. */
  lemma AlwaysSet(buf: string)
    requires NUL in buf && ReadLine(buf).Some?
    ensures var c := ReadLine(buf).value;
      && (c.frontend.Atsc? || c.frontend.Dvbs? ==> c.inversion == 2)
      && (c.frontend.Dvbs? ==> c.frontend.fec == 9 && c.frontend.polarization in {'h', 'v', 'l', 'r'})
  {
    hide ParseInt, ParseSetting, ParseChar, Classify;
  }

  lemma RoundedIff(c: Channel)
    requires InRange(c)
    ensures Rounded(Normal(c)) == Normal(c) <==> ThousandsOk(c)
  {
  }

  lemma NormalSettings(c: Channel)
    ensures SettingsOk(Normal(c)) <==> SettingsOk(c)
  {
  }

  /**
   A printed channel is read back, up to what a reader always sets, exactly when its name has none of the characters
   that the format uses and fits, its settings have names, and its DVB-S values are whole thousands.
   */
  lemma LineRoundTripIff(c: Channel, stale: string)
    requires InRange(c)
    ensures ReadLine(Buffer(PrintChannel(c) + "\n", stale)) == Some(Normal(c)) <==> Saveable(c)
  {
    var buf := Buffer(PrintChannel(c) + "\n", stale);
    if ReadLine(buf) == Some(Normal(c)) {
      LineProducible(buf);
      NormalSettings(c);
    }
    if NameOk(c.name) && SettingsOk(c) {
      LineRead(c, stale);
      RoundedIff(c);
    }
    assert Normal(c).name == c.name;
    hide ReadLine, PrintChannel, NameOk, SettingsOk, ThousandsOk, Normal, Rounded;
  }

  // ----- files

  /** The lines that `getline` delivers, each with its newline but for an unfinished last one. */
  function Lines(text: string): seq<string>
    decreases |text|
  {
    if text == "" then []
    else
      var i := Find(text, '\n');
      if i == |text| then [text] else [text[..i + 1]] + Lines(text[i + 1..])
  }

  /** The channels of a list of lines, without those lines that are none; `stale(i)` stands behind line `i`. */
  function ReadLines(lines: seq<string>, stale: nat -> string, i: nat): seq<Channel> {
    if lines == [] then []
    else
      var c := ReadLine(Buffer(lines[0], stale(i)));
      (if c.Some? then [c.value] else []) + ReadLines(lines[1..], stale, i + 1)
  }

  /** Every line is read on its own, in order, and a line without a channel is passed over. */
  lemma {:induction false} LinesReadAlone(lines: seq<string>, line: string, more: seq<string>, stale: nat -> string, i: nat)
    ensures
      var (c, n) := (ReadLine(Buffer(line, stale(i + |lines|))), i + |lines| + 1);
      ReadLines(lines + [line] + more, stale, i)
      == ReadLines(lines, stale, i) + (if c.Some? then [c.value] else []) + ReadLines(more, stale, n)
  {
    hide ReadLine, Buffer, ReadLines;
    if lines == [] {
      assert lines + [line] + more == [line] + more;
      FirstLineRead(line, more, stale, i);
      NoLinesRead(lines, stale, i);
    } else {
      var (first, tail) := (lines[0], lines[1..]);
      assert lines + [line] + more == [first] + (tail + [line] + more) && lines == [first] + tail;
      FirstLineRead(first, tail + [line] + more, stale, i);
      FirstLineRead(first, tail, stale, i);
      LinesReadAlone(tail, line, more, stale, i + 1);
    }
  }

  lemma FirstLineRead(line: string, more: seq<string>, stale: nat -> string, i: nat)
    ensures
      var c := ReadLine(Buffer(line, stale(i)));
      ReadLines([line] + more, stale, i) == (if c.Some? then [c.value] else []) + ReadLines(more, stale, i + 1)
  {
    hide ReadLine, Buffer;
    assert ([line] + more)[1..] == more;
  }

  lemma NoLinesRead(lines: seq<string>, stale: nat -> string, i: nat)
    requires lines == []
    ensures ReadLines(lines, stale, i) == []
  {
  }

  function SaveAll(cs: seq<Channel>): string {
    if cs == [] then "" else PrintChannel(cs[0]) + "\n" + SaveAll(cs[1..])
  }

  function NormalAll(cs: seq<Channel>): seq<Channel> {
    if cs == [] then [] else [Normal(cs[0])] + NormalAll(cs[1..])
  }

  lemma LinesStep(line: string, rest: string)
    requires Lacks(line, '\n')
    ensures Lines(line + "\n" + rest) == [line + "\n"] + Lines(rest)
  {
    var text := line + "\n" + rest;
    FindIs(text, '\n', |line|);
    assert text[..|line| + 1] == line + "\n" && text[|line| + 1..] == rest;
  }

  lemma PrintedOnOneLine(c: Channel)
    requires Saveable(c)
    ensures Lacks(PrintChannel(c), '\n')
  {
    FrontendLacks(c, '\n');
    hide PrintFrontend, PrintPids, With, Lacks, SettingsOk;
    FieldLacks(c.name, PrintFrontend(c, PrintPids(c)), '\n');
  }

  /** Reading a saved list gives every channel back, in order and normalised, whatever is left in the line buffer. */
  lemma {:induction false} FileRoundTrip(cs: seq<Channel>, stale: nat -> string, i: nat)
    requires forall k :: 0 <= k < |cs| ==> InRange(cs[k]) && Saveable(cs[k])
    ensures ReadLines(Lines(SaveAll(cs)), stale, i) == NormalAll(cs)
    decreases |cs|
  {
    hide ReadLine, PrintChannel, Saveable, InRange, Normal, Lines, Buffer, Lacks;
    if cs == [] {
      NoLines();
    } else {
      PrintedOnOneLine(cs[0]);
      LinesStep(PrintChannel(cs[0]), SaveAll(cs[1..]));
      LineRoundTripIff(cs[0], stale(i));
      FileRoundTrip(cs[1..], stale, i + 1);
      var rest := Lines(SaveAll(cs[1..]));
      assert ([PrintChannel(cs[0]) + "\n"] + rest)[1..] == rest;
    }
  }

  lemma NoLines()
    ensures Lines("") == []
  {
  }

  // ----- the columns of a line

  function Joined(fields: seq<string>): string {
    if fields == [] then "" else if |fields| == 1 then fields[0] else fields[0] + ":" + Joined(fields[1..])
  }

  /** What stands in which column. */
  function Columns(c: Channel): seq<string> {
    var pids := [PrintInt(c.videoPid), PrintInt(c.audioPid), PrintInt(c.serviceId)];
    match c.frontend
    case Atsc(modulation) => [c.name, PrintUnsigned(c.frequency), Name(modulation, ATSC_MODULATIONS)] + pids
    case Dvbc(rate, fec, modulation) =>
      [c.name, PrintUnsigned(c.frequency), Name(c.inversion, INVERSIONS), PrintUnsigned(rate), Name(fec, FECS),
       Name(modulation, DVBC_MODULATIONS)] + pids
    case Dvbs(polarization, switch, rate, _) =>
      [c.name, PrintUnsigned(c.frequency / 1000), [ToLower(polarization)], PrintInt(switch), PrintUnsigned(rate / 1000)]
      + pids
    case Dvbt(bandwidth, hp, lp, constellation, mode, guard, hierarchy) =>
      [c.name, PrintUnsigned(c.frequency), Name(c.inversion, INVERSIONS), Name(bandwidth, BANDWIDTHS), Name(hp, FECS),
       Name(lp, FECS), Name(constellation, CONSTELLATIONS), Name(mode, TRANSMISSION_MODES), Name(guard, GUARD_INTERVALS),
       Name(hierarchy, HIERARCHIES)] + pids
  }

  lemma JoinedMore(f: string, fields: seq<string>)
    requires fields != []
    ensures Joined([f] + fields) == With(f, Joined(fields))
  {
    assert ([f] + fields)[1..] == fields;
  }

  lemma JoinedThree(a: string, b: string, c: string, fields: seq<string>)
    requires fields != []
    ensures Joined([a, b, c] + fields) == With(a, With(b, With(c, Joined(fields))))
  {
    assert [a, b, c] + fields == [a] + ([b] + ([c] + fields));
    JoinedMore(c, fields);
    JoinedMore(b, [c] + fields);
    JoinedMore(a, [b] + ([c] + fields));
  }

  /** A printed line holds these columns in this order, with a colon between them. */
  lemma PrintedColumns(c: Channel)
    ensures PrintChannel(c) == Joined(Columns(c))
  {
    hide PrintInt, PrintUnsigned, Name, Joined;
    var pids := [PrintInt(c.videoPid), PrintInt(c.audioPid), PrintInt(c.serviceId)];
    PidColumns(c);
    var all := Columns(c);
    match c.frontend
    case Atsc(_) =>
      JoinedThree(all[0], all[1], all[2], pids);
      assert all == [all[0], all[1], all[2]] + pids;
    case Dvbc(_, _, _) =>
      JoinedThree(all[3], all[4], all[5], pids);
      JoinedThree(all[0], all[1], all[2], [all[3], all[4], all[5]] + pids);
      assert all == [all[0], all[1], all[2]] + ([all[3], all[4], all[5]] + pids);
    case Dvbs(_, _, _, _) =>
      JoinedMore(all[4], pids);
      JoinedMore(all[3], [all[4]] + pids);
      JoinedThree(all[0], all[1], all[2], [all[3]] + ([all[4]] + pids));
      assert all == [all[0], all[1], all[2]] + ([all[3]] + ([all[4]] + pids));
    case Dvbt(_, _, _, _, _, _, _) => DvbtColumns(c);
  }

  lemma DvbtColumns(c: Channel)
    requires c.frontend.Dvbt?
    ensures PrintChannel(c) == Joined(Columns(c))
  {
    hide PrintInt, PrintUnsigned, Name, Joined;
    var pids := [PrintInt(c.videoPid), PrintInt(c.audioPid), PrintInt(c.serviceId)];
    PidColumns(c);
    var all := Columns(c);
    var last := [all[9]] + pids;
    var third := [all[6], all[7], all[8]] + last;
    var second := [all[3], all[4], all[5]] + third;
    JoinedMore(all[9], pids);
    JoinedThree(all[6], all[7], all[8], last);
    JoinedThree(all[3], all[4], all[5], third);
    JoinedThree(all[0], all[1], all[2], second);
    assert all == [all[0], all[1], all[2]] + second;
  }

  lemma PidColumns(c: Channel)
    ensures Joined([PrintInt(c.videoPid), PrintInt(c.audioPid), PrintInt(c.serviceId)]) == PrintPids(c)
  {
    hide PrintInt;
    var (v, a, n) := (PrintInt(c.videoPid), PrintInt(c.audioPid), PrintInt(c.serviceId));
    JoinedMore(a, [n]);
    JoinedMore(v, [a] + [n]);
    assert [v, a, n] == [v] + ([a] + [n]);
  }

  // ----- comments

  /**
   A comment is not always left out: without a colon in front of it, its own text is read as the fields of a channel
   whose name is what stands in front of it.
   */
  lemma CommentIsRead(name: string, comment: string, stale: string)
    requires NameOk(name) && Lacks(comment, NUL)
    ensures ReadLine(Buffer(name + "#" + comment, stale)) == ReadBody(name, comment)
  {
    hide ReadBody;
    var buf := Buffer(name + "#" + comment, stale);
    NoEnds(name);
    assert forall j :: 0 <= j < |name| ==> buf[j] == name[j];
    LineEndIs(buf, |name|);
    assert buf[..|name|] == name;
    FindIs(name, ':', |name|);
    var text := buf[|name| := NUL];
    assert text[|name| + 1..] == comment + [NUL] + stale;
    CStringIs(text, |name| + 1, comment, stale);
  }

  /** A channel behind a hash is read like one behind a colon, though it is a comment. */
  lemma CommentedChannelIsRead(c: Channel, stale: string)
    requires InRange(c) && NameOk(c.name) && SettingsOk(c)
    ensures ReadLine(Buffer(c.name + "#" + PrintFrontend(c, PrintPids(c)), stale)) == Some(Rounded(Normal(c)))
  {
    FrontendLacks(c, NUL);
    hide PrintFrontend, PrintPids, ReadBody, ReadLine, SettingsOk, NameOk, Lacks;
    CommentIsRead(c.name, PrintFrontend(c, PrintPids(c)), stale);
    BodyRoundTrip(c);
  }

  /** Text without a character that ends a line. */
  predicate Unended(t: string) {
    Lacks(t, NUL) && Lacks(t, '\n') && Lacks(t, '#')
  }

  /** The name ends at a colon, or is too long for a channel, before the text does. */
  predicate NameEnds(t: string) {
    !Lacks(t, ':') || |t| >= NAME_SIZE
  }

  predicate SameUpTo(a: string, b: string, z: nat) {
    z < |a| && z < |b| && forall i :: 0 <= i <= z ==> a[i] == b[i]
  }

  /** Buffers that agree up to a NUL hold the same string in front of it. */
  lemma {:induction false} CStringLocal(a: string, b: string, pos: nat, z: nat)
    requires pos <= z && SameUpTo(a, b, z) && a[z] == NUL
    ensures CString(a, pos) == CString(b, pos)
    decreases z - pos
  {
    if pos < z {
      CStringLocal(a, b, pos + 1, z);
    }
  }

  /** Two buffers are read alike when they agree in front of the end of the line, and up to a NUL behind the name. */
  lemma ReadAlike(a: string, b: string, e: nat, z: nat)
    requires NUL in a && NUL in b && LineEnd(a) == LineEnd(b) == e <= z
    requires SameUpTo(a[e := NUL], b[e := NUL], z) && a[e := NUL][z] == NUL
    requires a[..e] == b[..e]
    requires Find(a[..e], ':') < z || Find(a[..e], ':') >= NAME_SIZE
    ensures ReadLine(a) == ReadLine(b)
  {
    var stop := Find(a[..e], ':');
    hide ReadBody, LineEnd, CString, Find;
    assert a[..stop] == a[..e][..stop] == b[..e][..stop] == b[..stop];
    if stop < z {
      CStringLocal(a[e := NUL], b[e := NUL], stop + 1, z);
    }
  }

  /** With the name ended in front of it, what stands behind the end of a line is not looked at. */
  lemma BehindLineIgnored(front: string, behind: string, other: string)
    requires Unended(front) && NameEnds(front)
    requires behind != [] && other != [] && EndsLine(behind[0]) && EndsLine(other[0])
    requires NUL in front + behind && NUL in front + other
    ensures ReadLine(front + behind) == ReadLine(front + other)
  {
    var (a, b, e) := (front + behind, front + other, |front|);
    NoEnds(front);
    LineEndIs(a, e);
    LineEndIs(b, e);
    assert a[..e] == front == b[..e];
    if Find(front, ':') == e {
      assert Lacks(front, ':');
    }
    hide LineEnd, ReadLine;
    ReadAlike(a, b, e, e);
  }

  lemma EmptyBody(name: string)
    ensures ReadBody(name, "") == None
  {
    LastField("");
  }

  /** Some channel of any usable name. */
  function SomeChannel(name: string): Channel {
    Channel(name, 0, INVERSION_AUTO, Atsc(0), 0, 0, 0)
  }

  lemma SomeChannelOk(name: string)
    ensures InRange(SomeChannel(name)) && SettingsOk(SomeChannel(name))
  {
    assert ATSC_MODULATIONS[2].value == 0;
  }

  /**
   A comment is ignored, whatever it says, if and only if a colon stands in front of it, or so much text that no
   channel can have it for its name.
   */
  lemma CommentIgnoredIff(front: string, stale: string)
    requires Unended(front)
    ensures
      (forall c: string, d: string :: Lacks(c, NUL) && Lacks(d, NUL) ==>
         ReadLine(Buffer(front + "#" + c, stale)) == ReadLine(Buffer(front + "#" + d, stale)))
      <==> NameEnds(front)
  {
    hide ReadLine, ReadBody, PrintFrontend, PrintPids;
    if NameEnds(front) {
      forall c: string, d: string | Lacks(c, NUL) && Lacks(d, NUL)
        ensures ReadLine(Buffer(front + "#" + c, stale)) == ReadLine(Buffer(front + "#" + d, stale))
      {
        assert Buffer(front + "#" + c, stale) == front + ("#" + c + [NUL] + stale);
        assert Buffer(front + "#" + d, stale) == front + ("#" + d + [NUL] + stale);
        BehindLineIgnored(front, "#" + c + [NUL] + stale, "#" + d + [NUL] + stale);
      }
    } else {
      var channel := SomeChannel(front);
      var comment := PrintFrontend(channel, PrintPids(channel));
      SomeChannelOk(front);
      CommentedChannelIsRead(channel, stale);
      FrontendLacks(channel, NUL);
      CommentIsRead(front, "", stale);
      EmptyBody(front);
      assert Lacks("", NUL) && Lacks(comment, NUL);
    }
  }

  /** A last line without newline, comment and colon is read with what an earlier line has left in the buffer. */
  lemma StaleIsRead(name: string, text: string, more: string)
    requires NameOk(name) && Lacks(text, NUL)
    ensures ReadLine(Buffer(name, text + [NUL] + more)) == ReadBody(name, text)
  {
    hide ReadBody;
    var buf := Buffer(name, text + [NUL] + more);
    NoEnds(name);
    assert buf == name + ([NUL] + text + [NUL] + more);
    LineEndIs(buf, |name|);
    assert buf[..|name|] == name;
    FindIs(name, ':', |name|);
    assert buf[|name| := NUL] == buf;
    assert buf[|name| + 1..] == text + [NUL] + more;
    CStringIs(buf, |name| + 1, text, more);
  }

  /**
   What an earlier line has left in the buffer is ignored if and only if the line has a newline or a comment, or its
   name ends in it.
   */
  lemma StaleIgnoredIff(line: string)
    ensures
      (forall a: string, b: string :: ReadLine(Buffer(line, a)) == ReadLine(Buffer(line, b)))
      <==> !Unended(line) || NameEnds(line)
  {
    hide ReadLine, ReadBody, PrintFrontend, PrintPids;
    if !Unended(line) || NameEnds(line) {
      forall a: string, b: string
        ensures ReadLine(Buffer(line, a)) == ReadLine(Buffer(line, b))
      {
        if Unended(line) {
          assert Buffer(line, a) == line + ([NUL] + a) && Buffer(line, b) == line + ([NUL] + b);
          BehindLineIgnored(line, [NUL] + a, [NUL] + b);
        } else {
          EndedLine(line, a, b);
        }
      }
    } else {
      var channel := SomeChannel(line);
      var text := PrintFrontend(channel, PrintPids(channel));
      SomeChannelOk(line);
      FrontendLacks(channel, NUL);
      StaleIsRead(line, text, "");
      StaleIsRead(line, "", "");
      EmptyBody(line);
      BodyRoundTrip(channel);
    }
  }

  /** A line that is ended by a character of its own is read up to the NUL behind it. */
  lemma EndedLine(line: string, a: string, b: string)
    requires !Unended(line)
    ensures ReadLine(Buffer(line, a)) == ReadLine(Buffer(line, b))
  {
    var (x, y) := (Buffer(line, a), Buffer(line, b));
    var e := FirstEnd(line);
    assert forall i :: 0 <= i < |line| ==> x[i] == y[i] == line[i];
    assert x[|line|] == y[|line|] == NUL;
    LineEndIs(x, e);
    LineEndIs(y, e);
    assert x[..e] == y[..e];
    hide LineEnd, ReadLine;
    ReadAlike(x, y, e, |line|);
  }

  lemma {:induction false} FirstEnd(t: string) returns (e: nat)
    requires !Unended(t)
    ensures e < |t| && EndsLine(t[e]) && forall j :: 0 <= j < e ==> !EndsLine(t[j])
  {
    if EndsLine(t[0]) {
      e := 0;
    } else {
      e := FirstEnd(t[1..]);
      e := e + 1;
    }
  }
}
