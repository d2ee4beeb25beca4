/** The class-name joiner `cn`. */
module Ui {
  import opened Collections

  /** An argument of `cn`: a string, or `false`, `null` or `undefined`. */
  datatype ClassArg = Cls(s: string) | False | Null | Undefined

  /** `Boolean(a)`: a string is kept unless it is empty; the other arguments never are. */
  predicate Kept(a: ClassArg)
  {
    a.Cls? && a.s != ""
  }

  /** `cls.filter(Boolean)`: the strings that are kept, in argument order. */
  function Classes(args: seq<ClassArg>): (r: seq<string>)
    ensures |r| <= |args|
    ensures forall i :: 0 <= i < |r| ==> r[i] != ""
  {
    if |args| == 0 then []
    else (if Kept(args[0]) then [args[0].s] else []) + Classes(args[1..])
  }

  /** `cn(...cls)`: the kept strings joined by single spaces. */
  function Cn(args: seq<ClassArg>): string
  {
    Join(Classes(args), " ")
  }

  /** Keeping commutes with concatenating the argument lists: order is kept. */
  lemma {:induction false} ClassesAppend(a: seq<ClassArg>, b: seq<ClassArg>)
    ensures Classes(a + b) == Classes(a) + Classes(b)
  {
    if |a| == 0 {
      assert a + b == b;
    } else {
      assert (a + b)[1..] == a[1..] + b;
      ClassesAppend(a[1..], b);
    }
  }

  /** A string is kept exactly when it is a non-empty string argument. */
  lemma {:induction false} ClassesMember(args: seq<ClassArg>, c: string)
    ensures c in Classes(args) <==> exists i :: 0 <= i < |args| && Kept(args[i]) && args[i].s == c
  {
    if |args| > 0 {
      ClassesMember(args[1..], c);
      if exists i :: 0 <= i < |args[1..]| && Kept(args[1..][i]) && args[1..][i].s == c {
        var i :| 0 <= i < |args[1..]| && Kept(args[1..][i]) && args[1..][i].s == c;
        assert args[i + 1] == args[1..][i];
      }
      if exists i :: 0 <= i < |args| && Kept(args[i]) && args[i].s == c {
        var i :| 0 <= i < |args| && Kept(args[i]) && args[i].s == c;
        if i > 0 {
          assert args[1..][i - 1] == args[i];
        }
      }
    }
  }

  /** The result is empty exactly when no argument is kept (no arguments, or only falsy ones). */
  lemma CnEmpty(args: seq<ClassArg>)
    ensures Cn(args) == "" <==> forall i :: 0 <= i < |args| ==> !Kept(args[i])
  {
    var cs := Classes(args);
    forall i | 0 <= i < |args| && Kept(args[i]) ensures |cs| > 0 {
      ClassesMember(args, args[i].s);
    }
    if |cs| > 0 {
      ClassesMember(args, cs[0]);
      JoinFirst(cs, " ");
    }
  }

  /** A join starts with its first part. */
  lemma JoinFirst(parts: seq<string>, sep: string)
    requires |parts| > 0
    ensures |Join(parts, sep)| >= |parts[0]|
  {
  }

  /** The kept strings of two argument lists are separated by a single space. */
  lemma CnAppend(a: seq<ClassArg>, b: seq<ClassArg>)
    requires |Classes(a)| > 0 && |Classes(b)| > 0
    ensures Cn(a + b) == Cn(a) + " " + Cn(b)
  {
    ClassesAppend(a, b);
    JoinAppend(Classes(a), Classes(b), " ");
  }

  /** A single non-empty string among only falsy arguments is returned as it is. */
  lemma {:induction false} CnSingle(args: seq<ClassArg>, i: nat)
    requires i < |args| && Kept(args[i])
    requires forall j :: 0 <= j < |args| && j != i ==> !Kept(args[j])
    ensures Cn(args) == args[i].s
  {
    assert args == args[..i] + [args[i]] + args[i + 1..];
    ClassesAppend(args[..i] + [args[i]], args[i + 1..]);
    ClassesAppend(args[..i], [args[i]]);
    NoneKept(args[..i]);
    NoneKept(args[i + 1..]);
    assert Classes([args[i]]) == [args[i].s] + Classes([args[i]][1..]);
  }

  lemma {:induction false} NoneKept(args: seq<ClassArg>)
    requires forall j :: 0 <= j < |args| ==> !Kept(args[j])
    ensures Classes(args) == []
  {
    if |args| > 0 {
      NoneKept(args[1..]);
    }
  }
}
