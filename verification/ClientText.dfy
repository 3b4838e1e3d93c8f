/** The texts the client takes apart and puts together: fields of a booking, requests to
    book, to delete and to move a booking. */
module ClientText {
  import opened Basics
  import opened TimeSlots
  import opened Text
  import opened Searching

  /** Position of the first match at or after from. */
  function FindFrom(s: string, p: string, from: nat): (r: Option<nat>)
    requires from <= |s|
    ensures r.Some? ==> from <= r.value <= |s| && MatchesAt(s, p, r.value)
    ensures forall i: nat :: from <= i <= |s| && (r.Some? ==> i < r.value) ==> !MatchesAt(s, p, i)
    decreases |s| - from
  {
    if MatchesAt(s, p, from) then Some(from)
    else if from == |s| then None
    else FindFrom(s, p, from + 1)
  }

  /** What follows the first occurrence of the prefix, up to the end of the line; nothing when
      the prefix does not occur. */
  function Extract(details: string, prefix: string): (r: string) {
    match FindFrom(details, prefix, 0)
    case None => ""
    case Some(pos) =>
      var start := pos + |prefix|;
      match FindFrom(details, "\n", start)
      case None => details[start..]
      case Some(end) => details[start..end]
  }

  /** substr: out_of_range past the end, as much as there is otherwise. */
  function Substr(s: string, pos: nat, len: nat): (r: Option<string>) {
    if pos > |s| then None else Some(if pos + len <= |s| then s[pos..pos + len] else s[pos..])
  }

  /** Two characters at pos read as a number; None when the client throws. */
  function Part(s: string, pos: nat): (r: Option<int>) {
    match Substr(s, pos, 2)
    case None => None
    case Some(t) => Stoi(t)
  }

  function ReadTime(s: string): (r: Option<Time>) {
    if Part(s, 0).None? || Part(s, 2).None? then None else Some(Time(Part(s, 0).value, Part(s, 2).value))
  }

  /** The eight fields of a request to move a booking. */
  function MoveFields(id: string, name: string, day: string, start: Time, end: Time): seq<string> {
    ["booking", id, name, day, PrintInt(start.hour), PrintInt(start.minute), PrintInt(end.hour), PrintInt(end.minute)]
  }

  /** The data of the request that moves a booking by a number of minutes, made from the
      text the server sent about it. None when the client throws. */
  function MoveData(id: string, offset: int, details: string): (r: Option<string>) {
    var start, end := ReadTime(Extract(details, "startTime:")), ReadTime(Extract(details, "endTime:"));
    if start.None? || end.None? then None
    else
      Some(Join(MoveFields(id, Extract(details, "facility:"), Extract(details, "day:"),
                           Split(Minutes(start.value) + offset), Split(Minutes(end.value) + offset)), ','))
  }

  /** The data of a request to book: the times are cut into two characters each. */
  function BookData(name: string, day: string, startTime: string, endTime: string): (r: Option<string>) {
    var h0, m0, h1, m1 := Substr(startTime, 0, 2), Substr(startTime, 2, 2),
                          Substr(endTime, 0, 2), Substr(endTime, 2, 2);
    if m0.None? || m1.None? then None else Some(Join([name, day, h0.value, m0.value, h1.value, m1.value], ','))
  }

  /** The data of the request to delete a booking, made from the text the server sent about it. */
  function DeleteData(id: string, details: string): string { id + "," + Extract(details, "facility:") }

  /** The data of the other requests. The text of a rating is what C++ prints of a float. */
  const NAMES_QUERY: string := "facility,ALL"

  function MonitorData(name: string, seconds: int): string { "register," + name + "," + PrintInt(seconds) }

  function RatingQuery(name: string): string { "rating," + name }

  function RateData(name: string, rating: string): string { "rating," + name + "," + rating }

  lemma SplitTwo(a: string, b: string)
    requires ',' !in a && ',' !in b && b != ""
    ensures JavaSplit(a + "," + b) == [a, b]
  {
    hide JavaSplit;
    JavaSplitJoin([a, b]);
    assert [a, b][1..] == [b];
    assert Join([a, b], ',') == a + [','] + b == a + "," + b;
  }

  lemma SplitThree(a: string, b: string, c: string)
    requires ',' !in a && ',' !in b && ',' !in c && c != ""
    ensures JavaSplit(a + "," + b + "," + c) == [a, b, c]
  {
    hide JavaSplit;
    JavaSplitJoin([a, b, c]);
    assert [a, b, c][1..] == [b, c] && [b, c][1..] == [c];
    assert Join([b, c], ',') == b + [','] + c;
    assert Join([a, b, c], ',') == a + [','] + (b + [','] + c) == a + "," + b + "," + c;
  }

  // ---------- times ----------

  lemma {:induction false} NatOfShort(s: string)
    requires AllDigits(s) && |s| <= 2
    ensures NatOf(s) <= 99 && (|s| <= 1 ==> NatOf(s) <= 9)
  {
    if s != "" {
      NatOfShort(s[..|s| - 1]);
    }
  }

  /** Whatever two characters are, they cannot stand for a number outside -9 to 99. */
  lemma StoiShort(s: string)
    requires |s| <= 2 && Stoi(s).Some?
    ensures -9 <= Stoi(s).value <= 99
  {
    var t := SkipSpace(s);
    var u := if t != "" && (t[0] == '-' || t[0] == '+') then t[1..] else t;
    NatOfShort(u[..DigitPrefix(u)]);
  }

  lemma PadTwo(n: int)
    requires -9 <= n <= 99
    ensures |Pad2(n)| == 2 && Stoi(Pad2(n)) == Some(n)
  {
    if n >= 0 {
      StoiPad2(n);
    } else {
      assert PrintNat(-n) == [Digit(-n)];
      assert Pad2(n) == ['-', Digit(-n)];
      var u := Pad2(n)[1..];
      assert u == [Digit(-n)];
      DigitPrefixAll(u);
      assert u[..1] == u && u[..0] == "";
      assert NatOf(u) == 10 * NatOf(u[..0]) + DigitValue(u[0]) == -n;
      assert SkipSpace(Pad2(n)) == Pad2(n);
    }
  }

  /** A time of day survives being printed by the server and read by the client exactly when
      hour and minute both take two characters. */
  lemma ReadBackIff(t: Time)
    ensures ReadTime(Pad2(t.hour) + Pad2(t.minute)) == Some(t) <==> -9 <= t.hour <= 99 && -9 <= t.minute <= 99
  {
    var s := Pad2(t.hour) + Pad2(t.minute);
    if -9 <= t.hour <= 99 && -9 <= t.minute <= 99 {
      PadTwo(t.hour);
      PadTwo(t.minute);
      assert s[0..2] == Pad2(t.hour) && s[2..4] == Pad2(t.minute);
    } else {
      PartShort(s, 0);
      PartShort(s, 2);
    }
  }

  lemma PartShort(s: string, pos: nat)
    ensures Part(s, pos).Some? ==> -9 <= Part(s, pos).value <= 99
  {
    if Part(s, pos).Some? {
      StoiShort(Substr(s, pos, 2).value);
    }
  }

  // ---------- fields ----------

  lemma FoundAt(s: string, p: string, from: nat, i: nat)
    requires from <= i <= |s| && MatchesAt(s, p, i)
    requires forall j: nat :: from <= j < i ==> !MatchesAt(s, p, j)
    ensures FindFrom(s, p, from) == Some(i)
  {
    var r := FindFrom(s, p, from);
    assert r.Some? && !(i < r.value) && !(r.value < i);
  }

  /** The client finds a field that stands at the beginning of a line, provided the lines
      before it do not contain the prefix. */
  lemma ExtractFinds(head: string, p: string, v: string, rest: string)
    requires p != "" && '\n' !in p && '\n' !in v && !Contains(head, p)
    ensures Extract(head + ['\n'] + (p + v + ['\n'] + rest), p) == v
  {
    hide FindFrom, Contains;
    var line := p + v + ['\n'] + rest;
    var s := head + ['\n'] + line;
    var pos, start, end := |head| + 1, |head| + 1 + |p|, |head| + 1 + |p| + |v|;
    assert s[pos..] == line && line[..|p|] == p;
    assert s[pos..pos + |p|] == p;
    forall j: nat | j < pos ensures !MatchesAt(s, p, j) {
      MatchAcross(head, '\n', line, p, j);
      NotContained(head, p, j);
    }
    FoundAt(s, p, 0, pos);
    assert s[start..end] == v;
    assert s[end..end + 1] == "\n";
    forall j: nat | start <= j < end ensures !MatchesAt(s, "\n", j) {
      assert s[j] == v[j - start] && v[j - start] in v;
      NoMatch(s, "\n", j, 0);
    }
    FoundAt(s, "\n", start, end);
  }

  lemma NotContained(s: string, p: string, i: nat)
    requires !Contains(s, p)
    ensures !MatchesAt(s, p, i)
  {
    InBounds(s, p, i);
  }
}
