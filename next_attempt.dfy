/** The "next attempt" column of the failed-jobs views: how long until a job is
    due again, or why it is not waiting. Timestamps are whole seconds; the wait
    is broken into whole days, hours and minutes, and leftover seconds are
    dropped. */
module NextAttempt {
  import opened Entities
  import opened Lookups

  const MinuteSeconds: nat := 60
  const HourSeconds: nat := 3600
  const DaySeconds: nat := 86400

  /** One part of the countdown, always greater than zero. */
  datatype Part = Days(n: nat) | Hours(n: nat) | Minutes(n: nat)

  datatype Title =
    | NoTitle
    | AwaitingCron
      /** The non-zero parts of the wait: days, then hours, then minutes. */
    | Countdown(parts: seq<Part>)
    | UnderMinute
    | JobFailed

  /** The seconds a part stands for. */
  function PartSeconds(p: Part): nat {
    match p
    case Days(n) => n * DaySeconds
    case Hours(n) => n * HourSeconds
    case Minutes(n) => n * MinuteSeconds
  }

  function Seconds(parts: seq<Part>): nat {
    if parts == [] then 0 else PartSeconds(parts[0]) + Seconds(parts[1..])
  }

  /** Parts as a clock shows them: at most one of each unit, in the order days,
      hours, minutes, none of them zero, hours under a day and minutes under an
      hour. */
  ghost predicate WellOrdered(parts: seq<Part>) {
    exists a: nat, b: nat, c: nat {:trigger FromUnits(a, b, c)} ::
      b < 24 && c < 60 && parts == FromUnits(a, b, c)
  }

  /** The parts for `a` days, `b` hours and `c` minutes, skipping the zeros. */
  function FromUnits(a: nat, b: nat, c: nat): seq<Part> {
    (if a > 0 then [Days(a)] else []) +
    (if b > 0 then [Hours(b)] else []) +
    (if c > 0 then [Minutes(c)] else [])
  }

  lemma FromUnitsSeconds(a: nat, b: nat, c: nat)
    ensures Seconds(FromUnits(a, b, c)) == a * DaySeconds + b * HourSeconds + c * MinuteSeconds
    ensures forall p :: p in FromUnits(a, b, c) ==> p.n > 0
    ensures FromUnits(a, b, c) == [] <==> a == 0 && b == 0 && c == 0
  {
    var ds := if a > 0 then [Days(a)] else [];
    var hs := if b > 0 then [Hours(b)] else [];
    var ms := if c > 0 then [Minutes(c)] else [];
    assert FromUnits(a, b, c) == ds + (hs + ms);
    assert Seconds(ms) == c * MinuteSeconds;
    if hs != [] {
      assert (hs + ms)[1..] == ms;
    } else {
      assert hs + ms == ms;
    }
    assert Seconds(hs + ms) == b * HourSeconds + c * MinuteSeconds;
    if ds != [] {
      assert (ds + (hs + ms))[1..] == hs + ms;
    } else {
      assert ds + (hs + ms) == hs + ms;
    }
  }

  /** The countdown for a wait of `d` seconds: whole days, the hours left over,
      then the minutes left over. */
  function WaitParts(d: nat): (parts: seq<Part>)
    ensures WellOrdered(parts)
    ensures Seconds(parts) <= d < Seconds(parts) + MinuteSeconds
    ensures forall p :: p in parts ==> p.n > 0
    ensures parts == [] <==> d < MinuteSeconds
  {
    var a, b, c := d / DaySeconds, (d % DaySeconds) / HourSeconds, (d % HourSeconds) / MinuteSeconds;
    UnitsOfWait(d);
    FromUnitsSeconds(a, b, c);
    FromUnits(a, b, c)
  }

  /** Splitting a wait into days, hours, minutes and seconds. */
  lemma UnitsOfWait(d: nat)
    ensures (d % DaySeconds) / HourSeconds < 24
    ensures (d % HourSeconds) / MinuteSeconds < 60
    ensures var a, b, c := d / DaySeconds, (d % DaySeconds) / HourSeconds, (d % HourSeconds) / MinuteSeconds;
      d == a * DaySeconds + b * HourSeconds + c * MinuteSeconds + d % MinuteSeconds
  {
    var a, r := d / DaySeconds, d % DaySeconds;
    assert d == a * DaySeconds + r;
    var b, r2 := r / HourSeconds, r % HourSeconds;
    assert r == b * HourSeconds + r2;
    assert r2 == d % HourSeconds by {
      assert d == (a * 24 + b) * HourSeconds + r2;
    }
    var c, s := r2 / MinuteSeconds, r2 % MinuteSeconds;
    assert r2 == c * MinuteSeconds + s;
    assert s == d % MinuteSeconds by {
      assert d == (a * 1440 + b * 60 + c) * MinuteSeconds + s;
    }
  }

  /** A clock-ordered countdown within a minute of the wait is the one the column
      shows: the breakdown of a wait is unique. */
  lemma WaitPartsUnique(d: nat, parts: seq<Part>)
    requires WellOrdered(parts)
    requires Seconds(parts) <= d < Seconds(parts) + MinuteSeconds
    ensures parts == WaitParts(d)
  {
    var a: nat, b: nat, c: nat :| b < 24 && c < 60 && parts == FromUnits(a, b, c);
    FromUnitsSeconds(a, b, c);
    UnitsOfWait(d);
    var s := d - (a * DaySeconds + b * HourSeconds + c * MinuteSeconds);
    assert 0 <= s < 60;
    assert d == a * DaySeconds + (b * HourSeconds + c * MinuteSeconds + s);
    assert a == d / DaySeconds;
    assert d % DaySeconds == b * HourSeconds + (c * MinuteSeconds + s);
    assert b == (d % DaySeconds) / HourSeconds;
    assert d == (a * 24 + b) * HourSeconds + (c * MinuteSeconds + s);
    assert d % HourSeconds == c * MinuteSeconds + s;
    assert c == (d % HourSeconds) / MinuteSeconds;
  }

  /** The title for a job in `state` that is available again at `available`
      (0 when unset), seen at time `now`. */
  function TitleOf(state: JobState, available: int, now: int): (t: Title)
    ensures state == Failure ==> t == JobFailed
    ensures state != Failure && available == 0 ==> t == NoTitle
    ensures state != Failure && available != 0 && now > available ==> t == AwaitingCron
    ensures state != Failure && available != 0 && now <= available ==>
      (t == UnderMinute <==> available - now < MinuteSeconds) &&
      (t != UnderMinute ==> t.Countdown? && t.parts == WaitParts(available - now))
  {
    var title :=
      if available == 0 then NoTitle
      else if now > available then AwaitingCron
      else
        var parts := WaitParts(available - now);
        if parts == [] then UnderMinute else Countdown(parts);
    if state == Failure then JobFailed else title
  }

  /** A form id PHP treats as true: neither empty nor "0". */
  predicate Truthy(s: string) {
    s != "" && s != "0"
  }

  /** What the column renders for a row: the title, only when the row has a job
      id whose relation names a form. */
  function Render(relations: map<JobId, Relation>, jobId: Option<JobId>, state: JobState,
                  available: int, now: int): (r: Option<Title>)
    ensures r.Some? <==> jobId.Some? && jobId.value in relations && Truthy(relations[jobId.value].webformId)
    ensures r.Some? ==> r.value == TitleOf(state, available, now)
  {
    if jobId.None? then None
    else
      match WebformIdFromQueue(relations, jobId.value)
      case Some(wf) => if Truthy(wf) then Some(TitleOf(state, available, now)) else None
      case None => None
  }

  /** A countdown is never empty, never longer than three parts, and stands for
      the wait rounded down to the minute. */
  lemma CountdownShape(state: JobState, available: int, now: int)
    requires TitleOf(state, available, now).Countdown?
    ensures var parts := TitleOf(state, available, now).parts;
      0 < |parts| <= 3 && now <= available &&
      Seconds(parts) == (available - now) / MinuteSeconds * MinuteSeconds
  {
    var d := available - now;
    var a, b, c := d / DaySeconds, (d % DaySeconds) / HourSeconds, (d % HourSeconds) / MinuteSeconds;
    UnitsOfWait(d);
    FromUnitsSeconds(a, b, c);
    assert d / MinuteSeconds == a * 1440 + b * 60 + c;
  }
}
