/** `StandardStatus` and `StandardPriority`. Like every C# enum they hold any `int`: a cast
    such as `(StandardPriority)7` is legal and `ToString()` then prints the number. */
module StandardEnums {
  import opened Numerics
  import Text
  import opened Wrappers

  datatype StandardStatus = StandardStatus(value: int32)
  datatype StandardPriority = StandardPriority(value: int32)

  const Active := StandardStatus(0)
  const Inactive := StandardStatus(1)
  const Archived := StandardStatus(2)
  const Deprecated := StandardStatus(3)

  const Low := StandardPriority(0)
  const Medium := StandardPriority(1)
  const High := StandardPriority(2)
  const Critical := StandardPriority(3)

  /** `Enum.ToString()`: the member name of a declared value, the decimal number otherwise. */
  function EnumName(value: int, names: seq<string>): string
  {
    if 0 <= value < |names| then names[value] else Text.IntToString(value)
  }

  const StatusNames: seq<string> := ["Active", "Inactive", "Archived", "Deprecated"]
  const PriorityNames: seq<string> := ["Low", "Medium", "High", "Critical"]

  /** `status.ToString()`: a declared status prints as one of the member names, any other
      value as a number that parses back to it. */
  function StatusName(s: StandardStatus): (r: string)
    ensures r in StatusNames <==> 0 <= s.value < |StatusNames|
    ensures r !in StatusNames ==> Text.ParseInt(r) == Some(s.value as int)
  {
    if 0 <= s.value < |StatusNames| then EnumName(s.value, StatusNames)
    else
      NumberNotAName(s.value, StatusNames);
      Text.IntToStringRoundTrip(s.value);
      EnumName(s.value, StatusNames)
  }

  /** `priority.ToString()`: a declared priority prints as one of the member names, any other
      value as a number that parses back to it. */
  function PriorityName(p: StandardPriority): (r: string)
    ensures r in PriorityNames <==> 0 <= p.value < |PriorityNames|
    ensures r !in PriorityNames ==> Text.ParseInt(r) == Some(p.value as int)
  {
    if 0 <= p.value < |PriorityNames| then EnumName(p.value, PriorityNames)
    else
      NumberNotAName(p.value, PriorityNames);
      Text.IntToStringRoundTrip(p.value);
      EnumName(p.value, PriorityNames)
  }

  /** A member name never reads like a number. */
  lemma NameIsNotNumber(value: int, names: seq<string>, k: nat)
    requires k < |names| && |names[k]| > 0 && 'A' <= names[k][0] <= 'Z'
    ensures names[k] != Text.IntToString(value)
  {
    var s := Text.IntToString(value);
    assert s[0] == '-' || Text.IsDigit(s[0]);
  }

  /** The printed form of an undeclared value is none of the member names. */
  lemma NumberNotAName(value: int, names: seq<string>)
    requires !(0 <= value < |names|)
    requires forall k :: 0 <= k < |names| ==> |names[k]| > 0 && 'A' <= names[k][0] <= 'Z'
    ensures EnumName(value, names) !in names
  {
    forall k | 0 <= k < |names| ensures names[k] != EnumName(value, names) {
      NameIsNotNumber(value, names, k);
    }
  }

  /** Different enum values print differently, so the printed name identifies the value. */
  lemma EnumNameInjective(a: int, b: int, names: seq<string>)
    requires forall k :: 0 <= k < |names| ==> |names[k]| > 0 && 'A' <= names[k][0] <= 'Z'
    requires forall i, j :: 0 <= i < j < |names| ==> names[i] != names[j]
    requires EnumName(a, names) == EnumName(b, names)
    ensures a == b
  {
    if !(0 <= a < |names|) {
      NumberNotAName(a, names);
      Text.IntToStringRoundTrip(a);
    }
    if !(0 <= b < |names|) {
      NumberNotAName(b, names);
      Text.IntToStringRoundTrip(b);
    }
  }

  lemma PriorityNameInjective(p: StandardPriority, q: StandardPriority)
    requires PriorityName(p) == PriorityName(q)
    ensures p == q
  {
    EnumNameInjective(p.value, q.value, PriorityNames);
  }

  lemma StatusNameInjective(s: StandardStatus, t: StandardStatus)
    requires StatusName(s) == StatusName(t)
    ensures s == t
  {
    EnumNameInjective(s.value, t.value, StatusNames);
  }
}
