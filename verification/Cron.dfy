/** Cron fields and the search for the next fire time (src/core/cron.ts). Times are minutes since
    1970-01-01 UTC. */
module Crons {
  import opened Prelude
  import opened Calendars

  datatype FieldName = Minute | Hour | Dom | Month | Dow

  function Min(name: FieldName): nat {
    if name == Dom || name == Month then 1 else 0
  }

  function Max(name: FieldName): nat {
    match name
    case Minute => 59
    case Hour => 23
    case Dom => 31
    case Month => 12
    case Dow => 6
  }

  // The values accepted: weekday 7 too.
  predicate Accepted(name: FieldName, v: nat) {
    Min(name) <= v <= Max(name) || (name == Dow && v == 7)
  }

  // ---------------------------------------------------------------- fields

  // A number, or an upper-cased word that is none.
  datatype Token = Number(n: nat) | Word(w: string)

  // What follows the slash: nothing, a number, or something that is none.
  datatype Step = NoStep | By(step: int) | BadStep

  datatype Part = One(value: Token) | Range(first: Token, last: Token, step: Step)

  datatype Field = Star | StarBy(every: Step) | Parts(parts: seq<Part>)

  datatype ParseError = InvalidStep | InvalidRange | InvalidValue | OutOfRange | WrongFieldCount

  const MONTHS := map["JAN" := 1, "FEB" := 2, "MAR" := 3, "APR" := 4, "MAY" := 5, "JUN" := 6,
                      "JUL" := 7, "AUG" := 8, "SEP" := 9, "OCT" := 10, "NOV" := 11, "DEC" := 12]
  const DAYS := map["SUN" := 0, "MON" := 1, "TUE" := 2, "WED" := 3, "THU" := 4, "FRI" := 5, "SAT" := 6]

  // Weekday names are not looked up where a range starts.
  function Resolve(name: FieldName, t: Token, startsRange: bool): Option<nat> {
    match t
    case Number(n) => Some(n)
    case Word(w) =>
      if name == Month && w in MONTHS then Some(MONTHS[w])
      else if name == Dow && !startsRange && w in DAYS then Some(DAYS[w])
      else None
  }

  // The values a part stands for, if it can be read at all.
  predicate Readable(name: FieldName, p: Part) {
    match p
    case One(t) => Resolve(name, t, false).Some?
    case Range(a, b, _) =>
      var lo, hi := Resolve(name, a, true), Resolve(name, b, false);
      lo.Some? && hi.Some? && lo.value <= hi.value
  }

  // A step that is not a number leaves only the start of the range.
  predicate Stands(name: FieldName, p: Part, v: nat)
    requires Readable(name, p)
  {
    match p
    case One(t) => v == Resolve(name, t, false).value
    case Range(a, b, step) =>
      var lo, hi := Resolve(name, a, true).value, Resolve(name, b, false).value;
      match step
      case NoStep => lo <= v <= hi
      case BadStep => v == lo
      case By(k) => lo <= v <= hi && Hits(v - lo, k)
  }

  predicate Hits(d: int, k: int) {
    k > 0 && d % k == 0
  }

  ghost predicate AllReadable(name: FieldName, parts: seq<Part>) {
    forall i :: 0 <= i < |parts| ==> Readable(name, parts[i])
  }

  ghost predicate AnyStands(name: FieldName, parts: seq<Part>, v: nat)
    requires AllReadable(name, parts)
  {
    exists i :: 0 <= i < |parts| && Stands(name, parts[i], v)
  }

  // The field as a set of values.
  ghost predicate Denotes(name: FieldName, f: Field, v: nat)
    requires f.Parts? ==> AllReadable(name, f.parts)
  {
    match f
    case Star => Min(name) <= v <= Max(name)
    case StarBy(step) => Min(name) <= v <= Max(name) && step.By? && Hits(v - Min(name), step.step)
    case Parts(parts) => AnyStands(name, parts, v)
  }

  ghost predicate WellFormed(name: FieldName, f: Field) {
    match f
    case Star => true
    case StarBy(step) => step.By? && step.step > 0
    case Parts(parts) => AllReadable(name, parts) && forall v :: AnyStands(name, parts, v) ==> Accepted(name, v)
  }

  // `*/15` of the minutes, `*/5` of the months, and the values of some ranges.
  lemma StarExamples(v: nat)
    ensures Denotes(Minute, StarBy(By(15)), v) <==> v in {0, 15, 30, 45}
    ensures Denotes(Month, StarBy(By(5)), v) <==> v in {1, 6, 11}
  {
  }

  lemma RangeExamples(v: nat)
    ensures Stands(Dom, Range(Number(1), Number(10), By(3)), v) <==> v in {1, 4, 7, 10}
    ensures Stands(Hour, Range(Number(9), Number(12), NoStep), v) <==> v in {9, 10, 11, 12}
    ensures Stands(Hour, Range(Number(2), Number(9), BadStep), v) <==> v == 2
  {
  }

  // Names count months from 1 and weekdays from Sunday, 0.
  lemma NameExamples(v: nat)
    ensures Resolve(Month, Word("JAN"), true) == Some(1) && Resolve(Month, Word("DEC"), false) == Some(12)
    ensures Resolve(Dow, Word("SUN"), false) == Some(0) && Resolve(Dow, Word("SAT"), false) == Some(6)
    ensures Resolve(Dow, Word("MON"), true) == None && Resolve(Hour, Word("MON"), false) == None
  {
  }

  // A range that can be read, with a step of zero or less (`1-10/0`, `1-10/-2`), is never finished.
  predicate Endless(name: FieldName, p: Part) {
    Readable(name, p) && p.Range? && p.step.By? && p.step.step <= 0
  }

  // The value the loop over a range has reached after n rounds; it goes on up to last.
  function Reached(first: int, step: int, n: nat): int {
    first + n * step
  }

  lemma {:induction false} EndlessNeverPasses(first: int, last: int, step: int, n: nat)
    requires first <= last
    ensures step <= 0 ==> Reached(first, step, n) <= last
    ensures step >= 1 ==> Reached(first, step, last - first + 1) > last
  {
    if step >= 1 {
      Times(last - first + 1, step);
      assert (last - first + 1) * step >= last - first + 1;
    } else if n > 0 {
      EndlessNeverPasses(first, last, step, n - 1);
      assert n * step == (n - 1) * step + step;
    }
  }

  // Parsing returns: parts are read in order (splitting at commas leaves at least one), and none is
  // endless before the first that is refused.
  ghost predicate Terminates(name: FieldName, f: Field) {
    f.Parts? ==> forall i :: 0 <= i < |f.parts| && AllReadable(name, f.parts[..i]) ==> !Endless(name, f.parts[i])
  }

  predicate Ascending(s: seq<nat>) {
    forall i, j :: 0 <= i < j < |s| ==> s[i] < s[j]
  }

  lemma AscendsThrough(s: seq<nat>, t: seq<nat>)
    requires Ascending(s) && Ascending(t) && forall x, y :: x in s && y in t ==> x < y
    ensures Ascending(s + t)
  {
    var r := s + t;
    forall i, j | 0 <= i < j < |r| ensures r[i] < r[j] {
      if i < |s| <= j {
        assert s[i] in s && t[j - |s|] in t;
      }
    }
  }

  // Inserting into a sorted list that holds each value once.
  function Insert(s: seq<nat>, v: nat): (r: seq<nat>)
    requires Ascending(s)
    ensures Ascending(r) && forall x :: x in r <==> x == v || x in s
  {
    if s == [] then [v]
    else if v < s[0] then [v] + s
    else if v == s[0] then s
    else
      var rest := Insert(s[1..], v);
      assert s == [s[0]] + s[1..];
      AscendsThrough([s[0]], rest);
      [s[0]] + rest
  }

  function SortedSet(values: seq<nat>): (r: seq<nat>)
    ensures Ascending(r) && forall x :: x in r <==> x in values
  {
    if values == [] then []
    else
      assert forall x :: x in values <==> x == values[0] || x in values[1..];
      Insert(SortedSet(values[1..]), values[0])
  }

  method RangeOf(start: nat, end: nat) returns (r: seq<nat>)
    ensures Ascending(r) && forall v :: v in r <==> start <= v <= end
  {
    r := [];
    var i := start;
    while i <= end
      invariant start <= i && (i <= end + 1 || r == [])
      invariant Ascending(r) && forall v :: v in r <==> start <= v < i && v <= end
      decreases end + 1 - i
    {
      AscendsThrough(r, [i]);
      r := r + [i];
      i := i + 1;
    }
  }

  method Divisible(all: seq<nat>, min: nat, step: int) returns (r: seq<nat>)
    requires Ascending(all) && step > 0
    ensures Ascending(r) && forall v :: v in r <==> v in all && Hits(v - min, step)
  {
    r := [];
    for i := 0 to |all|
      invariant Ascending(r) && forall v :: v in r <==> v in all[..i] && Hits(v - min, step)
    {
      assert all[..i + 1] == all[..i] + [all[i]];
      if (all[i] - min) % step == 0 {
        AscendsThrough(r, [all[i]]);
        r := r + [all[i]];
      }
    }
    assert all[..|all|] == all;
  }

  // The values of one part, in the order they are pushed.
  method PartValues(name: FieldName, p: Part) returns (r: Result<seq<nat>, ParseError>)
    requires !Endless(name, p)
    ensures r.Ok? <==> Readable(name, p)
    ensures r.Ok? ==> r.value != [] && forall v :: v in r.value <==> Stands(name, p, v)
    ensures r.Err? ==> r.error == if p.Range? then InvalidRange else InvalidValue
  {
    if p.One? {
      var val := Resolve(name, p.value, false);
      return if val.None? then Err(InvalidValue) else Ok([val.value]);
    }
    var start, end := Resolve(name, p.first, true), Resolve(name, p.last, false);
    if start.None? || end.None? || start.value > end.value {
      return Err(InvalidRange);
    }
    if p.step.BadStep? {
      return Ok([start.value]);
    }
    var step := if p.step.By? then p.step.step else 1;
    var values := Stepped(start.value, end.value, step);
    r := Ok(values);
  }

  method Stepped(start: nat, end: nat, step: int) returns (values: seq<nat>)
    requires start <= end && step > 0
    ensures values != [] && forall v :: v in values <==> start <= v <= end && Hits(v - start, step)
  {
    values := [];
    var v := start;
    while v <= end
      invariant start <= v && Hits(v - start, step) && (values == [] ==> v == start)
      invariant forall x :: x in values <==> start <= x <= end && x < v && Hits(x - start, step)
      decreases end + step - v
    {
      NextHit(v - start, step);
      values := values + [v];
      v := v + step;
    }
  }

  // Between two multiples of k there is none.
  lemma NextHit(d: nat, k: int)
    requires Hits(d, k)
    ensures Hits(d + k, k) && forall x :: d < x < d + k ==> !Hits(x, k)
  {
    ModStep(d, k);
    forall x | d < x < d + k ensures !Hits(x, k) {
      Times(k, x / k - d / k);
      assert k * (x / k - d / k) == k * (x / k) - k * (d / k);
    }
  }

  lemma ModStep(d: nat, k: int)
    requires k > 0
    ensures (d + k) % k == d % k
  {
    var e := d + k;
    assert k * (e / k - d / k - 1) == k * (e / k) - k * (d / k) - k;
    Times(k, e / k - d / k - 1);
  }

  lemma Times(k: nat, q: int)
    ensures q >= 1 ==> k * q >= k
    ensures q <= -1 ==> k * q + k <= 0
    ensures q == 0 ==> k * q == 0
  {
  }

  /**
    A field parses exactly when every part can be read and stands only for accepted values, and then
    gives those values, ascending and each once.
   */
  method ParseField(name: FieldName, f: Field) returns (r: Result<seq<nat>, ParseError>)
    requires f != Parts([]) && Terminates(name, f)
    ensures r.Ok? <==> WellFormed(name, f)
    ensures r.Ok? ==> Ascending(r.value) && r.value != [] && forall v :: v in r.value <==> Denotes(name, f, v)
    ensures r.Err? ==> (r.error == OutOfRange <==> f.Parts? && AllReadable(name, f.parts))
  {
    match f {
      case Star =>
        var all := RangeOf(Min(name), Max(name));
        assert Min(name) in all;
        r := Ok(all);
      case StarBy(step) =>
        if !step.By? || step.step <= 0 {
          return Err(InvalidStep);
        }
        var all := RangeOf(Min(name), Max(name));
        var some := Divisible(all, Min(name), step.step);
        assert Hits(Min(name) - Min(name), step.step);
        assert Min(name) in some;
        r := Ok(some);
      case Parts(parts) =>
        r := ParseParts(name, parts);
    }
  }

  method ParseParts(name: FieldName, parts: seq<Part>) returns (r: Result<seq<nat>, ParseError>)
    requires parts != [] && Terminates(name, Parts(parts))
    ensures r.Ok? <==> WellFormed(name, Parts(parts))
    ensures r.Ok? ==> Ascending(r.value) && r.value != [] && forall v :: v in r.value <==> AnyStands(name, parts, v)
    ensures r.Err? ==> (r.error == OutOfRange <==> AllReadable(name, parts))
  {
    var values: seq<nat> := [];
    for i := 0 to |parts|
      invariant AllReadable(name, parts[..i])
      invariant forall v :: v in values <==> AnyStands(name, parts[..i], v)
      invariant i > 0 ==> values != []
    {
      var some := PartValues(name, parts[i]);
      if some.Err? {
        return Err(some.error);
      }
      StandsNext(name, parts, i);
      values := values + some.value;
    }
    assert parts[..|parts|] == parts;
    for i := 0 to |values|
      invariant forall k :: 0 <= k < i ==> Accepted(name, values[k])
    {
      if !Accepted(name, values[i]) {
        assert AnyStands(name, parts, values[i]);
        return Err(OutOfRange);
      }
    }
    r := Ok(SortedSet(values));
    assert values[0] in r.value;
  }

  lemma StandsNext(name: FieldName, parts: seq<Part>, i: nat)
    requires i < |parts| && AllReadable(name, parts[..i]) && Readable(name, parts[i])
    ensures AllReadable(name, parts[..i + 1])
    ensures forall v ::
      AnyStands(name, parts[..i + 1], v) <==> AnyStands(name, parts[..i], v) || Stands(name, parts[i], v)
  {
    var longer := parts[..i + 1];
    assert forall k :: 0 <= k < i ==> longer[k] == parts[..i][k];
    forall v ensures AnyStands(name, longer, v) <==> AnyStands(name, parts[..i], v) || Stands(name, parts[i], v) {
      if Stands(name, parts[i], v) {
        assert Stands(name, longer[i], v);
      }
      if AnyStands(name, parts[..i], v) {
        var k :| 0 <= k < i && Stands(name, parts[..i][k], v);
        assert Stands(name, longer[k], v);
      }
    }
  }

  // A range between weekday names is refused, whatever the names: SUN-SAT does not parse.
  lemma NamedWeekdayRangesFail(w: string, last: Token, step: Step)
    ensures !WellFormed(Dow, Parts([Range(Word(w), last, step)]))
  {
    assert !Readable(Dow, [Range(Word(w), last, step)][0]);
  }

  // ---------------------------------------------------------------- expressions

  datatype ParsedCron = ParsedCron(minute: seq<nat>, hour: seq<nat>, dom: seq<nat>, month: seq<nat>, dow: seq<nat>)

  ghost predicate FieldValues(name: FieldName, s: seq<nat>) {
    s != [] && Ascending(s) && forall v :: v in s ==> Accepted(name, v)
  }

  // Whatever parseCron can return.
  ghost predicate Parsed(p: ParsedCron) {
    && FieldValues(Minute, p.minute) && FieldValues(Hour, p.hour) && FieldValues(Dom, p.dom)
    && FieldValues(Month, p.month) && FieldValues(Dow, p.dow)
  }

  // Parsing the fields returns: none is endless before the first that is refused.
  ghost predicate AllTerminate(minute: Field, hour: Field, dom: Field, month: Field, dow: Field) {
    && Terminates(Minute, minute)
    && (WellFormed(Minute, minute) ==> Terminates(Hour, hour))
    && (WellFormed(Minute, minute) && WellFormed(Hour, hour) ==> Terminates(Dom, dom))
    && (WellFormed(Minute, minute) && WellFormed(Hour, hour) && WellFormed(Dom, dom) ==> Terminates(Month, month))
    && (WellFormed(Minute, minute) && WellFormed(Hour, hour) && WellFormed(Dom, dom) && WellFormed(Month, month) ==>
          Terminates(Dow, dow))
  }

  method ParseCron(fields: seq<Field>) returns (r: Result<ParsedCron, ParseError>)
    requires forall i :: 0 <= i < |fields| ==> fields[i] != Parts([])
    requires |fields| == 5 ==> AllTerminate(fields[0], fields[1], fields[2], fields[3], fields[4])
    ensures r.Ok? ==> Parsed(r.value)
    ensures r.Ok? <==>
            && |fields| == 5
            && WellFormed(Minute, fields[0]) && WellFormed(Hour, fields[1]) && WellFormed(Dom, fields[2])
            && WellFormed(Month, fields[3]) && WellFormed(Dow, fields[4])
    ensures r.Ok? ==>
      && (forall v :: v in r.value.minute <==> Denotes(Minute, fields[0], v))
      && (forall v :: v in r.value.hour <==> Denotes(Hour, fields[1], v))
      && (forall v :: v in r.value.dom <==> Denotes(Dom, fields[2], v))
      && (forall v :: v in r.value.month <==> Denotes(Month, fields[3], v))
      && (forall v :: v in r.value.dow <==> Denotes(Dow, fields[4], v))
  {
    if |fields| != 5 {
      return Err(WrongFieldCount);
    }
    var minute := ParseField(Minute, fields[0]);
    if minute.Err? { return Err(minute.error); }
    var hour := ParseField(Hour, fields[1]);
    if hour.Err? { return Err(hour.error); }
    var dom := ParseField(Dom, fields[2]);
    if dom.Err? { return Err(dom.error); }
    var month := ParseField(Month, fields[3]);
    if month.Err? { return Err(month.error); }
    var dow := ParseField(Dow, fields[4]);
    if dow.Err? { return Err(dow.error); }
    r := Ok(ParsedCron(minute.value, hour.value, dom.value, month.value, dow.value));
  }
}
