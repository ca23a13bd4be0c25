/**
 * The part of a cross-account role ARN the scheduler reads: the account id,
 * taken as the fifth ':'-separated field (`account_role.split(":")[4]`), and
 * the assumed-role session name derived from it.
 */
module RoleArn {
  import opened Wrappers

  /** Python's `s.split(sep)` for a one-character separator: the pieces
      between separators, in order. */
  function Split(s: string, sep: char): seq<string>
    decreases |s|
  {
    if |s| == 0 then [""]
    else
      var rest := Split(s[1..], sep);
      if s[0] == sep then [""] + rest else [[s[0]] + rest[0]] + rest[1..]
  }

  /** n separators give n + 1 pieces, none of which holds the separator, and
      joining the pieces back with the separator gives the input again. */
  lemma {:induction false} SplitPieces(s: string, sep: char)
    ensures |Split(s, sep)| == Occurrences(s, sep) + 1
    ensures forall p | p in Split(s, sep) :: sep !in p
    ensures Join(Split(s, sep), sep) == s
    decreases |s|
  {
    if |s| > 0 {
      SplitPieces(s[1..], sep);
      var rest := Split(s[1..], sep);
      if s[0] == sep {
        assert Join([""] + rest, sep) == [sep] + Join(rest, sep);
      } else {
        assert s == [s[0]] + s[1..];
        assert rest[0] in rest;
        assert forall p | p in rest[1..] :: p in rest;
      }
    }
  }

  /** How often `c` occurs in `s`. */
  function Occurrences(s: string, c: char): nat
    decreases |s|
  {
    if |s| == 0 then 0
    else (if s[0] == c then 1 else 0) + Occurrences(s[1..], c)
  }

  /** `sep.join(parts)`. */
  function Join(parts: seq<string>, sep: char): string
    requires |parts| > 0
    decreases |parts|
  {
    if |parts| == 1 then parts[0] else parts[0] + [sep] + Join(parts[1..], sep)
  }

  /** Splitting a piece without separators in front of some text splits only the text. */
  lemma {:induction false} SplitPrefix(p: string, tail: string, sep: char)
    requires sep !in p
    ensures |Split(tail, sep)| > 0
    ensures Split(p + tail, sep) == [p + Split(tail, sep)[0]] + Split(tail, sep)[1..]
    decreases |p|
  {
    SplitPieces(tail, sep);
    if |p| > 0 {
      assert (p + tail)[1..] == p[1..] + tail;
      assert sep !in p[1..] by {
        forall c | c in p[1..] ensures c in p { }
      }
      SplitPrefix(p[1..], tail, sep);
      assert [p[0]] + (p[1..] + Split(tail, sep)[0]) == p + Split(tail, sep)[0];
    } else {
      var parts := Split(tail, sep);
      assert p + tail == tail && p + parts[0] == parts[0];
      assert [parts[0]] + parts[1..] == parts;
    }
  }

  /** Splitting inverts joining, provided no piece contains the separator. */
  lemma {:induction false} SplitJoin(parts: seq<string>, sep: char)
    requires |parts| > 0
    requires forall p | p in parts :: sep !in p
    ensures Split(Join(parts, sep), sep) == parts
    decreases |parts|
  {
    var p := parts[0];
    assert p in parts;
    if |parts| == 1 {
      SplitPrefix(p, "", sep);
      assert p + "" == p;
    } else {
      var rest := Join(parts[1..], sep);
      assert forall q | q in parts[1..] :: q in parts;
      SplitJoin(parts[1..], sep);
      assert p + [sep] + rest == p + ([sep] + rest);
      SplitPrefix(p, [sep] + rest, sep);
      assert ([sep] + rest)[1..] == rest;
      assert Split([sep] + rest, sep) == [""] + parts[1..];
      assert p + "" == p;
    }
  }

  /** The account id of a role ARN: its fifth ':'-separated field, or
      `None` where Python's `split(":")[4]` raises IndexError. */
  function AccountId(roleArn: string): Option<string>
  {
    var fields := Split(roleArn, ':');
    if |fields| > 4 then Some(fields[4]) else None
  }

  /** An ARN has an account id exactly when it holds at least four colons,
      and the id holds none. */
  lemma AccountIdDefined(roleArn: string)
    ensures AccountId(roleArn).Some? <==> Occurrences(roleArn, ':') >= 4
    ensures AccountId(roleArn).Some? ==> ':' !in AccountId(roleArn).value
  {
    SplitPieces(roleArn, ':');
    var fields := Split(roleArn, ':');
    if |fields| > 4 {
      assert fields[4] in fields;
    }
  }

  /** An ARN assembled from colon-free fields yields its fifth field as
      account id, and no account id when it has fewer than five fields. */
  lemma AccountIdOfFields(fields: seq<string>)
    requires |fields| > 0
    requires forall f | f in fields :: ':' !in f
    ensures AccountId(Join(fields, ':')) == if |fields| > 4 then Some(fields[4]) else None
  {
    SplitJoin(fields, ':');
  }

  const SessionPrefix: string := "asg-scheduler-"

  /** The role session name `"asg-scheduler-{}".format(account)`. */
  function SessionName(account: string): (name: string)
    ensures |name| == |SessionPrefix| + |account|
    ensures name[..|SessionPrefix|] == SessionPrefix && name[|SessionPrefix|..] == account
  {
    SessionPrefix + account
  }

  /** Distinct accounts get distinct session names, so a session traces back to its account. */
  lemma SessionNameInjective(a: string, b: string)
    requires SessionName(a) == SessionName(b)
    ensures a == b
  {
    assert a == SessionName(a)[|SessionPrefix|..];
  }
}
