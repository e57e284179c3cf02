/** Cron fields and schedules: `CronField::parse` and `CronSchedule::matches` of src/cron.rs. */
module CronSchedules {
  import opened Text

  datatype Result<T> = Ok(value: T) | Err(error: string)

  datatype CronField = CronField(any: bool, allowed: set<nat>)
  {
    predicate Contains(v: nat) { any || v in allowed }
  }

  /** One part of a field list: every `step`-th value from `start` up to `end`. */
  datatype Stride = Stride(start: nat, end: nat, step: nat)

  const U8_MAX := 255

  function CheckedAdd(a: nat, b: nat): Option<nat> { if a + b <= U8_MAX then Some(a + b) else None }

  function Normalize(v: nat, wrapSunday: bool): nat { if wrapSunday && v == 7 then 0 else v }

  function ParseValue(raw: string, min: nat, max: nat): (r: Option<nat>)
    ensures r.Some? ==> min <= r.value <= max
  {
    match ParseU8(Trim(raw))
    case Some(v) => if min <= v <= max then Some(v) else None
    case None => None
  }

  /** The grammar of one part: `*`, `a` or `a-b`, each with an optional `/step`. */
  function ParsePart(part: string, min: nat, max: nat): (r: Option<Stride>)
    requires min <= max <= U8_MAX
    ensures r.Some? ==> min <= r.value.start <= r.value.end <= max && 1 <= r.value.step <= U8_MAX
  {
    var (base, step) := match SplitOnce(part, '/') case Some((b, s)) => (b, ParseU8(s)) case None => (part, Some(1));
    if part == "" || step == None || step == Some(0) then None
    else
      var (start, end) :=
        if base == "*" then (Some(min), Some(max))
        else
          match SplitOnce(base, '-')
          case Some((a, b)) => (ParseValue(a, min, max), ParseValue(b, min, max))
          case None => (ParseValue(base, min, max), ParseValue(base, min, max));
      if start == None || end == None || start.value > end.value then None
      else Some(Stride(start.value, end.value, step.value))
  }

  // ---- What a field denotes ----

  /** `v` is `start + k*step` for some k, and not beyond `end`. */
  ghost predicate Visits(s: Stride, v: nat) {
    exists k: nat :: v == s.start + k * s.step && v <= s.end
  }

  ghost predicate Allows(strides: seq<Stride>, wrapSunday: bool, v: nat) {
    exists i, w :: 0 <= i < |strides| && Visits(strides[i], w) && v == Normalize(w, wrapSunday)
  }

  ghost predicate Denotes(field: CronField, strides: seq<Stride>, wrapSunday: bool) {
    !field.any && forall v :: v in field.allowed <==> Allows(strides, wrapSunday, v)
  }

  /** The parts of a field text, if it is one. */
  ghost predicate Reads(spec: string, min: nat, max: nat, strides: seq<Stride>)
    requires min <= max <= U8_MAX
  {
    var parts := Split(Trim(spec), ',');
    |strides| == |parts| && forall i :: 0 <= i < |parts| ==> ParsePart(Trim(parts[i]), min, max) == Some(strides[i])
  }

  lemma VisitsNext(s: Stride, v: nat)
    requires s.step >= 1
    ensures Visits(s, v) <==> (v == s.start <= s.end) || Visits(s.(start := s.start + s.step), v)
  {
    if k: nat :| v == s.start + k * s.step && v <= s.end {
      if k > 0 { assert v == (s.start + s.step) + (k - 1) * s.step; }
    }
    if k: nat :| v == (s.start + s.step) + k * s.step && v <= s.end {
      assert v == s.start + (k + 1) * s.step;
    }
    assert s.start == s.start + 0 * s.step;
  }

  lemma VisitsWithinBounds(s: Stride, v: nat)
    requires Visits(s, v)
    ensures s.start <= v <= s.end
  {
    var k: nat :| v == s.start + k * s.step && v <= s.end;
    assert k * s.step >= 0;
  }

  /** The stepping loop in u8 arithmetic: it ends for every step, never overflows, and visits the whole stride. */
  method Walk(s: Stride, wrapSunday: bool, allowed: set<nat>) returns (r: set<nat>)
    requires s.start <= s.end <= U8_MAX && 1 <= s.step <= U8_MAX
    ensures forall v :: v in r <==> v in allowed || exists w :: Visits(s, w) && v == Normalize(w, wrapSunday)
  {
    hide Visits;
    r := allowed;
    var value := s.start;
    while true
      invariant s.start <= value <= s.end
      invariant forall w :: Visits(s.(start := value), w) ==> Visits(s, w)
      invariant forall v :: v in r ==> v in allowed || exists w :: Visits(s, w) && v == Normalize(w, wrapSunday)
      invariant allowed <= r
      invariant forall w :: Visits(s, w) ==> Visits(s.(start := value), w) || Normalize(w, wrapSunday) in r
      decreases s.end - value
    {
      ghost var here, ahead := s.(start := value), s.(start := value + s.step);
      forall w: nat ensures Visits(here, w) <==> w == value || Visits(ahead, w) { VisitsNext(here, w); }
      assert Visits(here, value) && Visits(s, value);
      r := r + {Normalize(value, wrapSunday)};
      var next := CheckedAdd(value, s.step);
      if next.Some? && next.value <= s.end {
        value := next.value;
      } else {
        forall w: nat | Visits(ahead, w) ensures value + s.step <= w <= s.end { VisitsWithinBounds(ahead, w); }
        break;
      }
    }
  }

  /** A field text is accepted iff it is `*` or every part of it is one; an accepted list denotes the union of its
      parts, and the final check for an empty result never fires. */
  method ParseField(spec: string, min: nat, max: nat, wrapSunday: bool) returns (r: Result<CronField>, ghost strides: seq<Stride>)
    requires min <= max <= U8_MAX
    ensures r.Ok? <==> Trim(spec) == "*" || exists ss :: Reads(spec, min, max, ss)
    ensures r.Ok? && Trim(spec) == "*" ==> r.value == CronField(true, {})
    ensures r.Ok? && Trim(spec) != "*" ==> Reads(spec, min, max, strides) && Denotes(r.value, strides, wrapSunday)
  {
    hide ParsePart, Allows;
    strides := [];
    var text := Trim(spec);
    if text == "" {
      EmptyPartFails(min, max);
      assert Split(text, ',') == [""] && Trim("") == "";
      BadPartRefuses(spec, min, max, 0);
      return Err("empty cron field"), [];
    }
    if text == "*" {
      return Ok(CronField(true, {})), [];
    }
    var parts := Split(text, ',');
    var allowed: set<nat> := {};
    AllowsNone(wrapSunday);
    var i := 0;
    while i < |parts|
      invariant 0 <= i <= |parts| && |strides| == i
      invariant forall j :: 0 <= j < i ==> ParsePart(Trim(parts[j]), min, max) == Some(strides[j])
      invariant forall v :: v in allowed <==> Allows(strides, wrapSunday, v)
      invariant i > 0 ==> allowed != {}
    {
      var stride := ParsePart(Trim(parts[i]), min, max);
      if stride == None {
        BadPartRefuses(spec, min, max, i);
        return Err("invalid cron field"), [];
      }
      ghost var before, seen := strides, allowed;
      allowed := Walk(stride.value, wrapSunday, allowed);
      strides := strides + [stride.value];
      AllowsOneMore(before, stride.value, wrapSunday);
      assert Visits(stride.value, stride.value.start) by { assert stride.value.start == stride.value.start + 0 * stride.value.step; }
      assert Normalize(stride.value.start, wrapSunday) in allowed;
      i := i + 1;
    }
    if allowed == {} {
      assert false;
    }
    r := Ok(CronField(false, allowed));
    assert Reads(spec, min, max, strides);
  }

  lemma EmptyPartFails(min: nat, max: nat)
    requires min <= max <= U8_MAX
    ensures ParsePart("", min, max) == None
  {
  }

  lemma EveryPartReads(spec: string, min: nat, max: nat, ss: seq<Stride>)
    requires min <= max <= U8_MAX && Reads(spec, min, max, ss)
    ensures forall p :: p in Split(Trim(spec), ',') ==> ParsePart(Trim(p), min, max) != None
  {
    var parts := Split(Trim(spec), ',');
    forall p | p in parts ensures ParsePart(Trim(p), min, max) != None {
      var i :| 0 <= i < |parts| && parts[i] == p;
    }
  }

  lemma BadPartRefuses(spec: string, min: nat, max: nat, i: nat)
    requires min <= max <= U8_MAX && i < |Split(Trim(spec), ',')|
    requires ParsePart(Trim(Split(Trim(spec), ',')[i]), min, max) == None
    ensures !exists ss :: Reads(spec, min, max, ss)
  {
    if ss :| Reads(spec, min, max, ss) { EveryPartReads(spec, min, max, ss); }
  }

  lemma AllowsNone(wrapSunday: bool)
    ensures forall v :: !Allows([], wrapSunday, v)
  {
  }

  lemma AllowsOneMore(strides: seq<Stride>, s: Stride, wrapSunday: bool)
    ensures forall v :: Allows(strides + [s], wrapSunday, v) <==>
              Allows(strides, wrapSunday, v) || exists w :: Visits(s, w) && v == Normalize(w, wrapSunday)
  {
    var all := strides + [s];
    forall v ensures Allows(all, wrapSunday, v) <==>
                     Allows(strides, wrapSunday, v) || exists w :: Visits(s, w) && v == Normalize(w, wrapSunday) {
      if i, w :| 0 <= i < |all| && Visits(all[i], w) && v == Normalize(w, wrapSunday) {
        assert i < |strides| ==> all[i] == strides[i];
      }
      if i, w :| 0 <= i < |strides| && Visits(strides[i], w) && v == Normalize(w, wrapSunday) { assert Visits(all[i], w); }
      if w :| Visits(s, w) && v == Normalize(w, wrapSunday) { assert Visits(all[|strides|], w); }
    }
  }

  /** Every value of an accepted field is in the field's range; Sunday is only ever 0. */
  lemma FieldStaysInRange(field: CronField, spec: string, min: nat, max: nat, strides: seq<Stride>, wrapSunday: bool, v: nat)
    requires min <= max <= U8_MAX && Reads(spec, min, max, strides) && Denotes(field, strides, wrapSunday) && v in field.allowed
    requires wrapSunday ==> min == 0 && max == 7
    ensures min <= v <= max && (wrapSunday ==> v < 7)
  {
    var i, w :| 0 <= i < |strides| && Visits(strides[i], w) && v == Normalize(w, wrapSunday);
    hide ParsePart, Visits;
    VisitsWithinBounds(strides[i], w);
    assert ParsePart(Trim(Split(Trim(spec), ',')[i]), min, max) == Some(strides[i]);
  }

  // ---- Schedules ----

  /** A minute as the calendar names it; `weekday` counts from Sunday = 0. */
  datatype Civil = Civil(minute: nat, hour: nat, day: nat, month: nat, weekday: nat)

  datatype CronSchedule = CronSchedule(minute: CronField, hour: CronField, dayOfMonth: CronField, month: CronField, dayOfWeek: CronField)
  {
    predicate Matches(t: Civil) {
      var dayMatches :=
        if dayOfMonth.any || dayOfWeek.any
        then dayOfMonth.Contains(t.day) && dayOfWeek.Contains(t.weekday)
        else dayOfMonth.Contains(t.day) || dayOfWeek.Contains(t.weekday);
      minute.Contains(t.minute) && hour.Contains(t.hour) && month.Contains(t.month) && dayMatches
    }
  }

  // ---- What a schedule text means ----

  const RANGES: seq<(nat, nat)> := [(0, 59), (0, 23), (1, 31), (1, 12), (0, 7)]
  const WEEKDAY := 4

  predicate IsStar(field: string) { Trim(field) == "*" }

  ghost predicate IsField(field: string, min: nat, max: nat)
    requires min <= max <= U8_MAX
  {
    IsStar(field) || exists ss :: Reads(field, min, max, ss)
  }

  /** The text is `*`, or one of its parts visits the value. */
  ghost predicate Admits(field: string, min: nat, max: nat, wrapSunday: bool, v: nat)
    requires min <= max <= U8_MAX
  {
    IsStar(field) || exists ss :: Reads(field, min, max, ss) && Allows(ss, wrapSunday, v)
  }

  /** When a schedule of five fields fires: minute, hour and month are admitted, and so is the day, by both day fields
      if one of them is `*` and by either of them if both are lists. */
  ghost predicate FiresAt(fields: seq<string>, t: Civil)
    requires |fields| == 5
  {
    var onDay, onWeekday := Admits(fields[2], 1, 31, false, t.day), Admits(fields[4], 0, 7, true, t.weekday);
    && Admits(fields[0], 0, 59, false, t.minute) && Admits(fields[1], 0, 23, false, t.hour) && Admits(fields[3], 1, 12, false, t.month)
    && if IsStar(fields[2]) || IsStar(fields[4]) then onDay && onWeekday else onDay || onWeekday
  }

  /** A text has one reading. */
  lemma OneReading(field: string, min: nat, max: nat, a: seq<Stride>, b: seq<Stride>)
    requires min <= max <= U8_MAX && Reads(field, min, max, a) && Reads(field, min, max, b)
    ensures a == b
  {
    hide ParsePart;
    var parts := Split(Trim(field), ',');
    forall i | 0 <= i < |a| ensures a[i] == b[i] {
      assert ParsePart(Trim(parts[i]), min, max) == Some(a[i]);
    }
  }

  /** One field of a schedule: it is accepted iff its text is a field, and admits what the text admits. */
  method ParseOne(fields: seq<string>, k: nat) returns (r: Result<CronField>)
    requires |fields| == 5 && k < 5
    ensures r.Ok? <==> IsField(fields[k], RANGES[k].0, RANGES[k].1)
    ensures r.Ok? ==> (r.value.any <==> IsStar(fields[k]))
                      && forall v :: r.value.Contains(v) <==> Admits(fields[k], RANGES[k].0, RANGES[k].1, k == WEEKDAY, v)
  {
    hide Reads, Allows;
    var (min, max) := RANGES[k];
    ghost var strides;
    r, strides := ParseField(fields[k], min, max, k == WEEKDAY);
    if r.Ok? && !IsStar(fields[k]) {
      forall v ensures r.value.Contains(v) <==> Admits(fields[k], min, max, k == WEEKDAY, v) {
        if ss :| Reads(fields[k], min, max, ss) && Allows(ss, k == WEEKDAY, v) { OneReading(fields[k], min, max, ss, strides); }
      }
    }
  }

  /** `CronSchedule::parse`: a text is a schedule iff it is five fields, and then it fires exactly when its fields, as
      they are written, say so. */
  method ParseSchedule(spec: string) returns (r: Result<CronSchedule>)
    ensures var fields := SplitWhitespace(spec);
      && (r.Ok? <==> |fields| == 5 && forall k :: 0 <= k < 5 ==> IsField(fields[k], RANGES[k].0, RANGES[k].1))
      && (r.Ok? ==> forall t :: r.value.Matches(t) <==> FiresAt(fields, t))
  {
    hide IsField, Admits, IsStar;
    var fields := SplitWhitespace(spec);
    if |fields| != 5 {
      return Err("must have exactly 5 fields");
    }
    var minute := ParseOne(fields, 0);
    if minute.Err? { return Err(minute.error); }
    var hour := ParseOne(fields, 1);
    if hour.Err? { return Err(hour.error); }
    var dayOfMonth := ParseOne(fields, 2);
    if dayOfMonth.Err? { return Err(dayOfMonth.error); }
    var month := ParseOne(fields, 3);
    if month.Err? { return Err(month.error); }
    var dayOfWeek := ParseOne(fields, 4);
    if dayOfWeek.Err? { return Err(dayOfWeek.error); }
    r := Ok(CronSchedule(minute.value, hour.value, dayOfMonth.value, month.value, dayOfWeek.value));
  }

  /** `*` and a list of every value admit the same days but are not the same field: beside a weekday list the first
      keeps the schedule to those weekdays, and the second opens it to all. */
  lemma FullListIsNotStar(s: CronSchedule, list: CronField, t: Civil)
    requires s.dayOfMonth.any && !list.any && t.day in list.allowed
    ensures s.(dayOfMonth := list).Matches(t) != s.Matches(t) <==>
              !s.dayOfWeek.Contains(t.weekday) && s.minute.Contains(t.minute) && s.hour.Contains(t.hour) && s.month.Contains(t.month)
  {
  }
}
