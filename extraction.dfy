/** Identity extraction: the effect of matching a file name against the
    pattern host "/" owner "/" [repo "/"] path, where host, owner and repo
    are runs of non-slash characters (which may include newlines) and path
    runs up to the first newline. The pattern is searched for anywhere in the
    name, leftmost first, and the optional repo group is tried first. */
module Extraction {

  datatype Identity = Identity(host: string, owner: string, repo: string, path: string)

  /** The number of occurrences of c in s. */
  function Occurrences(s: string, c: char): nat
  {
    if |s| == 0 then 0 else (if s[0] == c then 1 else 0) + Occurrences(s[1..], c)
  }

  /** Splits s at the first occurrence of c: the text before it and the text
      after it, or None when c does not occur. */
  function SplitAtFirst(s: string, c: char): (r: Option<(string, string)>)
    ensures r.None? <==> c !in s
    ensures r.Some? ==> c !in r.value.0 && s == r.value.0 + [c] + r.value.1
  {
    if |s| == 0 then None
    else if s[0] == c then Some(([], s[1..]))
    else
      match SplitAtFirst(s[1..], c)
      case None => None
      case Some(p) => Some(([s[0]] + p.0, p.1))
  }

  datatype Option<T> = None | Some(value: T)

  /** The longest prefix of s without a newline: what `.*` matches. */
  function FirstLine(s: string): (r: string)
    ensures '\n' !in r
    ensures r <= s
    ensures |r| == |s| || s[|r|] == '\n'
  {
    match SplitAtFirst(s, '\n')
    case None => s
    case Some(p) => assert s[|p.0|] == '\n'; p.0
  }

  /** The submatches of the pattern in name, or None when it does not match. */
  function ExtractIdentity(name: string): (r: Option<Identity>)
    ensures r.Some? ==> '/' !in r.value.host && '/' !in r.value.owner && '/' !in r.value.repo
    ensures r.Some? ==> '\n' !in r.value.path
  {
    match SplitAtFirst(name, '/')
    case None => None
    case Some(first) =>
      match SplitAtFirst(first.1, '/')
      case None => None
      case Some(second) =>
        match SplitAtFirst(second.1, '/')
        case Some(third) => Some(Identity(first.0, second.0, third.0, FirstLine(third.1)))
        case None => Some(Identity(first.0, second.0, "", FirstLine(second.1)))
  }

  lemma {:induction false} OccurrencesAppend(a: string, b: string, c: char)
    ensures Occurrences(a + b, c) == Occurrences(a, c) + Occurrences(b, c)
  {
    if |a| > 0 {
      assert (a + b)[1..] == a[1..] + b;
      OccurrencesAppend(a[1..], b, c);
    } else {
      assert a + b == b;
    }
  }

  lemma {:induction false} OccurrencesAbsent(s: string, c: char)
    ensures c !in s <==> Occurrences(s, c) == 0
  {
    if |s| > 0 {
      OccurrencesAbsent(s[1..], c);
      assert s == [s[0]] + s[1..];
    }
  }

  /** Occurrences of c split around the first c. */
  lemma SplitOccurrences(s: string, c: char)
    requires c in s
    ensures Occurrences(s, c) == 1 + Occurrences(SplitAtFirst(s, c).value.1, c)
  {
    var p := SplitAtFirst(s, c).value;
    OccurrencesAppend(p.0 + [c], p.1, c);
    OccurrencesAppend(p.0, [c], c);
    OccurrencesAbsent(p.0, c);
    assert Occurrences([c], c) == 1 + Occurrences([c][1..], c);
  }

  /** A file name is accepted exactly when it contains at least two slashes. */
  lemma MatchIffTwoSlashes(name: string)
    ensures ExtractIdentity(name).Some? <==> Occurrences(name, '/') >= 2
  {
    OccurrencesAbsent(name, '/');
    if '/' in name {
      SplitOccurrences(name, '/');
      var rest := SplitAtFirst(name, '/').value.1;
      OccurrencesAbsent(rest, '/');
      if '/' in rest {
        SplitOccurrences(rest, '/');
      }
    }
  }

  /** The repo group is filled exactly when there is a third slash; with only
      two, repo is empty. */
  lemma RepoIffThreeSlashes(name: string)
    requires ExtractIdentity(name).Some?
    ensures Occurrences(name, '/') >= 3 <==> '/' in SplitAtFirst(SplitAtFirst(name, '/').value.1, '/').value.1
    ensures Occurrences(name, '/') == 2 ==> ExtractIdentity(name).value.repo == ""
  {
    var rest := SplitAtFirst(name, '/').value.1;
    var rest2 := SplitAtFirst(rest, '/').value.1;
    SplitOccurrences(name, '/');
    SplitOccurrences(rest, '/');
    OccurrencesAbsent(rest2, '/');
  }

  /** SplitAtFirst is determined by its contract: any split around a first
      occurrence of c is the one it returns. */
  lemma {:induction false} SplitAtFirstUnique(s: string, c: char, before: string, after: string)
    requires c !in before && s == before + [c] + after
    ensures SplitAtFirst(s, c) == Some((before, after))
  {
    if |before| > 0 {
      assert s[0] == before[0] && s[1..] == before[1..] + [c] + after;
      SplitAtFirstUnique(s[1..], c, before[1..], after);
      assert [s[0]] + before[1..] == before;
    } else {
      assert s[1..] == after;
    }
  }

  /** A character absent from s is absent from what follows its first c. */
  lemma AbsentAfterSplit(s: string, c: char, d: char)
    requires c in s && d !in s
    ensures d !in SplitAtFirst(s, c).value.1
  {
  }

  /** Without a newline, FirstLine is the identity. */
  lemma FirstLineNoNewline(s: string)
    requires '\n' !in s
    ensures FirstLine(s) == s
  {
  }

  /** The three splits of a name with a repo segment give its identity. */
  lemma {:induction false} IdentityWithRepo(name: string, first: (string, string), second: (string, string), third: (string, string))
    requires SplitAtFirst(name, '/') == Some(first)
    requires SplitAtFirst(first.1, '/') == Some(second)
    requires SplitAtFirst(second.1, '/') == Some(third)
    requires '\n' !in third.1
    ensures ExtractIdentity(name) == Some(Identity(first.0, second.0, third.0, third.1))
  {
    FirstLineNoNewline(third.1);
  }

  /** The three splits of a name put it back together. */
  lemma {:induction false} JoinWithRepo(name: string, first: (string, string), second: (string, string), third: (string, string))
    requires SplitAtFirst(name, '/') == Some(first)
    requires SplitAtFirst(first.1, '/') == Some(second)
    requires SplitAtFirst(second.1, '/') == Some(third)
    ensures name == first.0 + "/" + second.0 + "/" + third.0 + "/" + third.1
  {
    JoinWithoutRepo(name, first, second);
    assert second.1 == third.0 + "/" + third.1;
    ConcatAssoc(first.0 + "/" + second.0 + "/", third.0 + "/", third.1);
  }

  /** The two splits of a name without a repo segment give its identity. */
  lemma {:induction false} IdentityWithoutRepo(name: string, first: (string, string), second: (string, string))
    requires SplitAtFirst(name, '/') == Some(first)
    requires SplitAtFirst(first.1, '/') == Some(second)
    requires '/' !in second.1 && '\n' !in second.1
    ensures ExtractIdentity(name) == Some(Identity(first.0, second.0, "", second.1))
  {
    FirstLineNoNewline(second.1);
  }

  /** The two splits of a name put it back together. */
  lemma {:induction false} JoinWithoutRepo(name: string, first: (string, string), second: (string, string))
    requires SplitAtFirst(name, '/') == Some(first)
    requires SplitAtFirst(first.1, '/') == Some(second)
    ensures name == first.0 + "/" + second.0 + "/" + second.1
  {
    assert name == first.0 + "/" + first.1;
    assert first.1 == second.0 + "/" + second.1;
    ConcatAssoc(first.0 + "/", second.0 + "/", second.1);
  }

  lemma ConcatAssoc(a: string, b: string, c: string)
    ensures a + (b + c) == a + b + c
  {
  }

  /** For a name without newlines the identity puts the name back together:
      with three or more slashes as host/owner/repo/path, with exactly two as
      host/owner/path and an empty repo. */
  lemma {:induction false} IdentityRoundTrip(name: string)
    requires '\n' !in name
    requires Occurrences(name, '/') >= 2
    ensures ExtractIdentity(name).Some?
    ensures var id := ExtractIdentity(name).value;
      if Occurrences(name, '/') >= 3
      then name == id.host + "/" + id.owner + "/" + id.repo + "/" + id.path
      else id.repo == "" && name == id.host + "/" + id.owner + "/" + id.path
  {
    MatchIffTwoSlashes(name);
    RepoIffThreeSlashes(name);
    var first := SplitAtFirst(name, '/').value;
    AbsentAfterSplit(name, '/', '\n');
    var second := SplitAtFirst(first.1, '/').value;
    AbsentAfterSplit(first.1, '/', '\n');
    if '/' in second.1 {
      var third := SplitAtFirst(second.1, '/').value;
      AbsentAfterSplit(second.1, '/', '\n');
      IdentityWithRepo(name, first, second, third);
      JoinWithRepo(name, first, second, third);
    } else {
      IdentityWithoutRepo(name, first, second);
      JoinWithoutRepo(name, first, second);
    }
  }

  /** The converse of the round trip: joining slash-free host, owner and
      repo segments and a newline-free path with slashes yields a name whose
      identity is exactly those parts. */
  lemma {:induction false} ExtractJoined(host: string, owner: string, repo: string, path: string)
    requires '/' !in host && '/' !in owner && '/' !in repo && '\n' !in path
    ensures ExtractIdentity(host + "/" + owner + "/" + repo + "/" + path) == Some(Identity(host, owner, repo, path))
  {
    var name := host + "/" + owner + "/" + repo + "/" + path;
    var rest1 := owner + "/" + repo + "/" + path;
    var rest2 := repo + "/" + path;
    SplitAtFirstUnique(name, '/', host, rest1);
    SplitAtFirstUnique(rest1, '/', owner, rest2);
    SplitAtFirstUnique(rest2, '/', repo, path);
    IdentityWithRepo(name, (host, rest1), (owner, rest2), (repo, path));
  }

  /** Joining only host, owner and a path without slashes or newlines yields a
      name whose identity has those parts and an empty repo. */
  lemma {:induction false} ExtractJoinedWithoutRepo(host: string, owner: string, path: string)
    requires '/' !in host && '/' !in owner && '/' !in path && '\n' !in path
    ensures ExtractIdentity(host + "/" + owner + "/" + path) == Some(Identity(host, owner, "", path))
  {
    var name := host + "/" + owner + "/" + path;
    var rest1 := owner + "/" + path;
    SplitAtFirstUnique(name, '/', host, rest1);
    SplitAtFirstUnique(rest1, '/', owner, path);
    IdentityWithoutRepo(name, (host, rest1), (owner, path));
  }

  /** A name without slashes, or with just one, is rejected. */
  lemma ExampleRejected()
    ensures ExtractIdentity("file.go").None?
    ensures ExtractIdentity("github.com/file.go").None?
  {
    SplitAtFirstUnique("github.com/file.go", '/', "github.com", "file.go");
    assert '/' !in "file.go";
  }
}
