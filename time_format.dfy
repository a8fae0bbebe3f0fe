/**
 * The clock texts shown beside videos: `formatDuration` of the browse and
 * search pages (`M:SS`) and `formatTime` of the player (`H:MM:SS` from one
 * hour on, `M:SS` below), for whole seconds. Each is proved against a reader
 * of colon-separated fields taken in base 60.
 */
module TimeFormat {
  import opened Common
  import opened Text

  /** `formatDuration`: whole minutes, a colon, the seconds padded to two digits. */
  function FormatDuration(seconds: nat): string {
    NatToString(seconds / 60) + ":" + Pad2(NatToString(seconds % 60))
  }

  /** `formatTime`: hours, minutes and seconds when there is a whole hour, else minutes and seconds. */
  function FormatTime(seconds: nat): string {
    var hours, minutes, rest := seconds / 3600, (seconds % 3600) / 60, seconds % 60;
    if hours > 0 then NatToString(hours) + ":" + Pad2(NatToString(minutes)) + ":" + Pad2(NatToString(rest))
    else NatToString(minutes) + ":" + Pad2(NatToString(rest))
  }

  /** The fields of a clock text, each a non-empty run of digits; None if one is not. */
  function ParseFields(fields: seq<string>): Option<seq<nat>> {
    if fields == [] then Some([])
    else
      var head, tail := ParseNat(fields[0]), ParseFields(fields[1..]);
      if head.Some? && tail.Some? then Some([head.value] + tail.value) else None
  }

  /** Fields read in base 60, most significant first. */
  function Base60(vs: seq<nat>): nat {
    if vs == [] then 0 else Base60(vs[..|vs| - 1]) * 60 + vs[|vs| - 1]
  }

  /** How many seconds a clock text stands for. */
  function ReadClock(text: string): Option<nat> {
    match ParseFields(Split(text, ':'))
    case Some(vs) => Some(Base60(vs))
    case None => None
  }

  lemma ClockFields(fields: seq<string>)
    requires |fields| >= 1 && forall j :: 0 <= j < |fields| ==> ':' !in fields[j]
    ensures Split(Join(fields, ':'), ':') == fields
  {
    SplitJoin(fields, ':');
  }

  lemma NoColonInDigits(s: string)
    requires AllDigits(s)
    ensures ':' !in s
  {
    assert forall i :: 0 <= i < |s| ==> IsDigit(s[i]);
  }

  lemma TwoFields(a: string, b: string)
    requires ':' !in a && ':' !in b
    ensures Split(a + ":" + b, ':') == [a, b]
  {
    assert Join([a, b], ':') == a + ":" + b by {
      assert [a, b][1..] == [b];
    }
    ClockFields([a, b]);
  }

  lemma ThreeFields(a: string, b: string, c: string)
    requires ':' !in a && ':' !in b && ':' !in c
    ensures Split(a + ":" + b + ":" + c, ':') == [a, b, c]
  {
    assert Join([b, c], ':') == b + ":" + c by {
      assert [b, c][1..] == [c];
    }
    assert Join([a, b, c], ':') == a + ":" + b + ":" + c by {
      assert [a, b, c][1..] == [b, c];
    }
    ClockFields([a, b, c]);
  }

  lemma ReadOne(a: string, x: nat)
    requires ParseNat(a) == Some(x)
    ensures ParseFields([a]) == Some([x])
    ensures Base60([x]) == x
  {
    assert [a][1..] == [];
    assert ParseFields([]) == Some([]);
    assert ParseFields([a]) == Some([x] + []);
    assert [x] + [] == [x];
    assert [x][..0] == [];
    assert Base60([]) == 0;
  }

  lemma ReadTwo(a: string, b: string, x: nat, y: nat)
    requires ParseNat(a) == Some(x) && ParseNat(b) == Some(y)
    ensures ParseFields([a, b]) == Some([x, y])
    ensures Base60([x, y]) == x * 60 + y
  {
    ReadOne(b, y);
    assert [a, b][1..] == [b];
    assert ParseFields([a, b]) == Some([x] + [y]);
    assert [x] + [y] == [x, y];
    ReadOne(a, x);
    assert [x, y][..1] == [x];
  }

  lemma ReadThree(a: string, b: string, c: string, x: nat, y: nat, z: nat)
    requires ParseNat(a) == Some(x) && ParseNat(b) == Some(y) && ParseNat(c) == Some(z)
    ensures ParseFields([a, b, c]) == Some([x, y, z])
    ensures Base60([x, y, z]) == (x * 60 + y) * 60 + z
  {
    ReadTwo(b, c, y, z);
    assert [a, b, c][1..] == [b, c];
    assert ParseFields([a, b, c]) == Some([x] + [y, z]);
    assert [x] + [y, z] == [x, y, z];
    ReadTwo(a, b, x, y);
    assert [x, y, z][..2] == [x, y];
  }

  lemma ModOfMultiple(n: nat, q: nat, r: nat)
    requires n == q * 60 + r && r < 60
    ensures n % 60 == r && n / 60 == q
  {
  }

  lemma HoursMinutesSeconds(seconds: nat)
    ensures ((seconds / 3600) * 60 + (seconds % 3600) / 60) * 60 + seconds % 60 == seconds
  {
    var h, r := seconds / 3600, seconds % 3600;
    assert seconds == h * 3600 + r;
    var m, s := r / 60, r % 60;
    assert r == m * 60 + s;
    assert h * 3600 == (h * 60) * 60;
    assert seconds == (h * 60 + m) * 60 + s;
    ModOfMultiple(seconds, h * 60 + m, s);
  }

  /** The minutes and the padded seconds of `formatDuration` read back as the duration. */
  lemma FormatDurationRoundTrip(seconds: nat)
    ensures ReadClock(FormatDuration(seconds)) == Some(seconds)
  {
    var m, s := NatToString(seconds / 60), Pad2(NatToString(seconds % 60));
    ParseNatToString(seconds / 60);
    ParsePad2(seconds % 60);
    NoColonInDigits(m);
    NoColonInDigits(s);
    TwoFields(m, s);
    ReadTwo(m, s, seconds / 60, seconds % 60);
  }

  /** The seconds field of `formatDuration` is always exactly two digits. */
  lemma FormatDurationSecondsField(seconds: nat)
    ensures var fields := Split(FormatDuration(seconds), ':');
      |fields| == 2 && |fields[1]| == 2 && ParseNat(fields[1]) == Some(seconds % 60)
  {
    var m, s := NatToString(seconds / 60), Pad2(NatToString(seconds % 60));
    ParsePad2(seconds % 60);
    NoColonInDigits(m);
    NoColonInDigits(s);
    TwoFields(m, s);
  }

  lemma ReadTwoClock(a: string, b: string, x: nat, y: nat)
    requires ParseNat(a) == Some(x) && ParseNat(b) == Some(y)
    ensures ReadClock(a + ":" + b) == Some(x * 60 + y)
  {
    NoColonInDigits(a);
    NoColonInDigits(b);
    TwoFields(a, b);
    ReadTwo(a, b, x, y);
  }

  lemma ReadThreeClock(a: string, b: string, c: string, x: nat, y: nat, z: nat)
    requires ParseNat(a) == Some(x) && ParseNat(b) == Some(y) && ParseNat(c) == Some(z)
    ensures ReadClock(a + ":" + b + ":" + c) == Some((x * 60 + y) * 60 + z)
  {
    NoColonInDigits(a);
    NoColonInDigits(b);
    NoColonInDigits(c);
    ThreeFields(a, b, c);
    ReadThree(a, b, c, x, y, z);
  }

  lemma ReadLongClock(seconds: nat)
    requires seconds >= 3600
    ensures ReadClock(FormatTime(seconds)) == Some(seconds)
  {
    var hours, minutes, rest := seconds / 3600, (seconds % 3600) / 60, seconds % 60;
    assert hours > 0;
    ParseNatToString(hours);
    ParsePad2(minutes);
    ParsePad2(rest);
    ReadThreeClock(NatToString(hours), Pad2(NatToString(minutes)), Pad2(NatToString(rest)), hours, minutes, rest);
    HoursMinutesSeconds(seconds);
  }

  lemma ReadShortClock(seconds: nat)
    requires seconds < 3600
    ensures ReadClock(FormatTime(seconds)) == Some(seconds)
  {
    var minutes, rest := seconds / 60, seconds % 60;
    assert seconds / 3600 == 0 && seconds % 3600 == seconds;
    assert FormatTime(seconds) == NatToString(minutes) + ":" + Pad2(NatToString(rest));
    ParseNatToString(minutes);
    ParsePad2(rest);
    ReadTwoClock(NatToString(minutes), Pad2(NatToString(rest)), minutes, rest);
  }

  /** `formatTime` reads back as the time it shows. */
  lemma FormatTimeRoundTrip(seconds: nat)
    ensures ReadClock(FormatTime(seconds)) == Some(seconds)
  {
    if seconds >= 3600 {
      ReadLongClock(seconds);
    } else {
      ReadShortClock(seconds);
    }
  }

  /** `formatTime` shows three fields exactly from one hour on, and two below. */
  lemma FormatTimeFieldCount(seconds: nat)
    ensures |Split(FormatTime(seconds), ':')| == if seconds >= 3600 then 3 else 2
  {
    var hours, minutes, rest := seconds / 3600, (seconds % 3600) / 60, seconds % 60;
    ParsePad2(rest);
    var s := Pad2(NatToString(rest));
    NoColonInDigits(s);
    if hours > 0 {
      ParsePad2(minutes);
      NoColonInDigits(NatToString(hours));
      NoColonInDigits(Pad2(NatToString(minutes)));
      ThreeFields(NatToString(hours), Pad2(NatToString(minutes)), s);
    } else {
      NoColonInDigits(NatToString(minutes));
      TwoFields(NatToString(minutes), s);
    }
  }

  lemma ThreeFieldValues(a: string, b: string, c: string, x: nat, y: nat, z: nat)
    requires ParseNat(a) == Some(x) && ParseNat(b) == Some(y) && ParseNat(c) == Some(z)
    ensures var fields := Split(a + ":" + b + ":" + c, ':');
      |fields| == 3 && fields[0] == a && fields[1] == b && fields[2] == c
  {
    NoColonInDigits(a);
    NoColonInDigits(b);
    NoColonInDigits(c);
    ThreeFields(a, b, c);
  }

  /** From one hour on, `formatTime` shows hours, then minutes and seconds padded to two digits each. */
  lemma FormatTimeLongFields(seconds: nat)
    requires seconds >= 3600
    ensures var fields := Split(FormatTime(seconds), ':');
      && |fields| == 3 && |fields[1]| == 2 && |fields[2]| == 2
      && ParseNat(fields[0]) == Some(seconds / 3600)
      && ParseNat(fields[1]) == Some((seconds % 3600) / 60)
      && ParseNat(fields[2]) == Some(seconds % 60)
  {
    var hours, minutes, rest := seconds / 3600, (seconds % 3600) / 60, seconds % 60;
    var h, m, r := NatToString(hours), Pad2(NatToString(minutes)), Pad2(NatToString(rest));
    assert hours > 0;
    assert FormatTime(seconds) == h + ":" + m + ":" + r;
    ParseNatToString(hours);
    ParsePad2(minutes);
    ParsePad2(rest);
    ThreeFieldValues(h, m, r, hours, minutes, rest);
  }

  /** Below one hour the player and the lists show the same text. */
  lemma FormatsAgreeBelowAnHour(seconds: nat)
    requires seconds < 3600
    ensures FormatTime(seconds) == FormatDuration(seconds)
  {
  }
}
