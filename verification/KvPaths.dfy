/** Ownership of a KV path: src/kv/paths.py and the check of src/kv/service.py. */
module KvPaths {
  import opened Text

  const PATH_PREFIX := "secret/"

  /** `extract_owner_email_from_path`; None stands for its ValueError. */
  function ExtractOwner(path: string): Option<string> {
    if !HasPrefix(path, PATH_PREFIX) then None
    else
      var segments := Split(path[|PATH_PREFIX|..], '/', 1);
      if |segments| != 2 || segments[0] == "" || segments[1] == "" then None
      else Some(Lower(Strip(segments[0])))
  }

  /** The requester owns the path prefix. */
  predicate Authorized(requester: string, path: string) {
    ExtractOwner(path) == Some(requester)
  }

  /** An owner read off a path has no slash, and the path starts `secret/`:
      all that the injectivity of the associated data needs. */
  lemma AuthorizedShape(requester: string, path: string)
    requires Authorized(requester, path)
    ensures Free(requester, '/') && HasPrefix(path, PATH_PREFIX)
  {
    var rest := path[|PATH_PREFIX|..];
    var segment := rest[..Find(rest, '/')];
    assert Split(rest, '/', 1)[0] == segment;
    StripFree(segment, '/');
  }

  // ------------------------------------------------------ who owns a path, by its text

  /** The path is the owner's: `secret/`, a segment without a slash that is the owner once
      trimmed and put in lower case, a slash, and something behind it. */
  ghost predicate OwnsAs(requester: string, path: string, segment: string, rest: string, trimmed: string) {
    && path == "secret/" + segment + "/" + rest
    && segment != "" && rest != "" && '/' !in segment
    && IsTrimmed(segment, trimmed) && IsLowered(trimmed, requester)
  }

  ghost predicate Owns(requester: string, path: string) {
    exists segment, rest, trimmed :: OwnsAs(requester, path, segment, rest, trimmed)
  }

  lemma FreeMeans(s: string, c: char)
    ensures Free(s, c) <==> c !in s
  {
  }

  lemma OwnsIsAuthorized(requester: string, path: string, segment: string, rest: string, trimmed: string)
    requires OwnsAs(requester, path, segment, rest, trimmed)
    ensures Authorized(requester, path)
  {
    hide Split, Lower, Strip, IsTrimmed, IsLowered;
    var tail := segment + ['/'] + rest;
    assert path == PATH_PREFIX + tail by {
      assert "/" == ['/'];
    }
    assert path[..|PATH_PREFIX|] == PATH_PREFIX && path[|PATH_PREFIX|..] == tail;
    FreeMeans(segment, '/');
    SplitCons(segment, rest, '/', 1);
    SplitNone(rest);
    StripMeans(segment, trimmed);
    LowerMeans(trimmed, requester);
  }

  lemma SplitNone(rest: string)
    ensures Split(rest, '/', 0) == [rest]
  {
  }

  lemma AuthorizedOwns(requester: string, path: string)
    requires Authorized(requester, path)
    ensures Owns(requester, path)
  {
    hide Lower, Strip, IsTrimmed, IsLowered, Find;
    var tail := path[|PATH_PREFIX|..];
    var i := Find(tail, '/');
    var segment, rest := tail[..i], tail[i + 1..];
    SplitNone(rest);
    Cut(tail, '/', i);
    FreeMeans(segment, '/');
    StripMeans(segment, Strip(segment));
    LowerMeans(Strip(segment), requester);
    assert path == PATH_PREFIX + tail && ['/'] == "/";
    assert OwnsAs(requester, path, segment, rest, Strip(segment));
  }

  /** Access control: exactly the owner of a path is let in. */
  lemma AuthorizedMeans(requester: string, path: string)
    ensures Authorized(requester, path) <==> Owns(requester, path)
  {
    hide Authorized, OwnsAs;
    if Authorized(requester, path) {
      AuthorizedOwns(requester, path);
    }
    forall segment, rest, trimmed | OwnsAs(requester, path, segment, rest, trimmed)
      ensures Authorized(requester, path)
    {
      OwnsIsAuthorized(requester, path, segment, rest, trimmed);
    }
  }

  /** A path has at most one owner. */
  lemma OneOwner(requester: string, other: string, path: string)
    requires Owns(requester, path) && Owns(other, path)
    ensures requester == other
  {
    hide Owns, ExtractOwner;
    AuthorizedMeans(requester, path);
    AuthorizedMeans(other, path);
  }

  /** A normal email owns the paths below `secret/<email>/`, unless it has a slash: then it
      owns no path at all. */
  lemma OwnPaths(email: string, rest: string)
    requires IsTrimmed(email, email) && IsLowered(email, email) && email != "" && rest != ""
    ensures Owns(email, "secret/" + email + "/" + rest) <==> '/' !in email
    ensures '/' in email ==> forall path :: !Owns(email, path)
  {
    if '/' !in email {
      assert OwnsAs(email, "secret/" + email + "/" + rest, email, rest, email);
    }
    hide Owns, ExtractOwner;
    FreeMeans(email, '/');
    forall path | Owns(email, path) ensures '/' !in email {
      AuthorizedMeans(email, path);
      AuthorizedShape(email, path);
    }
  }
}
