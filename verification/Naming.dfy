/**
  Names of groups, members and pods: a store or cluster name followed by decimal
  numbers, joined with dashes.  Store names may themselves contain dashes and
  digits; the numbers are still recovered, because they come last.
 */
module Naming {
  import opened Options

  function Digit(d: nat): char
    requires d < 10
  {
    '0' + d as char
  }

  /** `%d` of a number that is not negative. */
  function Decimal(n: nat): string {
    if n < 10 then [Digit(n)] else Decimal(n / 10) + [Digit(n % 10)]
  }

  /** `%s-%d` */
  function Numbered(name: string, n: nat): string {
    name + "-" + Decimal(n)
  }

  /** The name of a Raft group of a store. */
  function GroupName(store: string, group: nat): string {
    Numbered(store, group)
  }

  /** The name of a member as the cluster reconciler builds it: from its group's name. */
  function NestedMemberName(groupName: string, member: nat): string {
    Numbered(groupName, member)
  }

  /** The name of a member as the event watcher builds it: `%s-%d-%d` at once. */
  function MemberName(store: string, group: nat, member: nat): string {
    store + "-" + Decimal(group) + "-" + Decimal(member)
  }

  /** The reconciler creates a member under the very name the watcher looks up. */
  lemma NestedIsFlat(store: string, group: nat, member: nat)
    ensures NestedMemberName(GroupName(store, group), member) == MemberName(store, group, member)
  {}

  // ----- taking names apart

  function DigitValue(c: char): Option<nat> {
    if '0' <= c <= '9' then Some((c - '0') as nat) else None
  }

  function ParseDecimal(s: string): Option<nat> {
    if s == [] then None
    else
      match DigitValue(s[|s| - 1])
      case None => None
      case Some(d) =>
        if |s| == 1 then Some(d)
        else
          match ParseDecimal(s[..|s| - 1])
          case None => None
          case Some(n) => Some(10 * n + d)
  }

  /** The part before the last dash and the part after it. */
  function SplitLast(s: string): Option<(string, string)> {
    if s == [] then None
    else if s[|s| - 1] == '-' then Some((s[..|s| - 1], ""))
    else
      match SplitLast(s[..|s| - 1])
      case None => None
      case Some((before, after)) => Some((before, after + [s[|s| - 1]]))
  }

  function ParseNumbered(s: string): Option<(string, nat)> {
    match SplitLast(s)
    case None => None
    case Some((before, after)) =>
      match ParseDecimal(after)
      case None => None
      case Some(n) => Some((before, n))
  }

  function ParseMemberName(s: string): Option<(string, nat, nat)> {
    match ParseNumbered(s)
    case None => None
    case Some((groupName, member)) =>
      match ParseNumbered(groupName)
      case None => None
      case Some((store, group)) => Some((store, group, member))
  }

  lemma {:induction false} DecimalParses(n: nat)
    ensures ParseDecimal(Decimal(n)) == Some(n)
    ensures '-' !in Decimal(n) && Decimal(n) != []
  {
    if n >= 10 {
      DecimalParses(n / 10);
      var s := Decimal(n);
      assert s[..|s| - 1] == Decimal(n / 10);
      assert s[|s| - 1] == Digit(n % 10);
    }
  }

  lemma {:induction false} SplitLastOf(before: string, after: string)
    requires '-' !in after
    ensures SplitLast(before + "-" + after) == Some((before, after))
    decreases |after|
  {
    var s := before + "-" + after;
    if after == "" {
      assert s == before + "-";
      assert s[..|s| - 1] == before;
    } else {
      var shorter := after[..|after| - 1];
      assert s[..|s| - 1] == before + "-" + shorter;
      assert s[|s| - 1] == after[|after| - 1];
      assert s[|s| - 1] in after;
      SplitLastOf(before, shorter);
      assert shorter + [after[|after| - 1]] == after;
    }
  }

  /** A numbered name gives back its parts. */
  lemma NumberedParses(name: string, n: nat)
    ensures ParseNumbered(Numbered(name, n)) == Some((name, n))
  {
    DecimalParses(n);
    SplitLastOf(name, Decimal(n));
  }

  /** Splitting at the last two dashes recovers store, group and member. */
  lemma MemberNameParses(store: string, group: nat, member: nat)
    ensures ParseMemberName(MemberName(store, group, member)) == Some((store, group, member))
  {
    NestedIsFlat(store, group, member);
    NumberedParses(GroupName(store, group), member);
    NumberedParses(store, group);
  }

  lemma MemberNameInjective(s: string, g: nat, m: nat, s': string, g': nat, m': nat)
    requires MemberName(s, g, m) == MemberName(s', g', m')
    ensures s == s' && g == g' && m == m'
  {
    MemberNameParses(s, g, m);
    MemberNameParses(s', g', m');
  }

  lemma NumberedInjective(s: string, n: nat, s': string, n': nat)
    requires Numbered(s, n) == Numbered(s', n')
    ensures s == s' && n == n'
  {
    NumberedParses(s, n);
    NumberedParses(s', n');
  }

  /** The part before the first `c` and the part after it. */
  function SplitFirst(s: string, c: char): Option<(string, string)> {
    if s == [] then None
    else if s[0] == c then Some(([], s[1..]))
    else
      match SplitFirst(s[1..], c)
      case None => None
      case Some((before, after)) => Some(([s[0]] + before, after))
  }

  lemma {:induction false} SplitFirstOf(before: string, c: char, after: string)
    requires c !in before
    ensures SplitFirst(before + [c] + after, c) == Some((before, after))
    decreases |before|
  {
    var s := before + [c] + after;
    if before == [] {
      assert s[0] == c && s[1..] == after;
    } else {
      assert s[0] == before[0] && before[0] in before;
      assert s[1..] == before[1..] + [c] + after;
      SplitFirstOf(before[1..], c, after);
      assert [before[0]] + before[1..] == before;
    }
  }
}
