/**
 * The generic remote of src/common/remote.ts: a named URL together with the
 * Protocol parsed from it, its equality, and the parsing of a repository's
 * remotes into such values.
 *
 * Protocol (src/common/protocol.ts) is not part of this model. Its URL parser
 * and its `update({ type })` are passed in as a ProtocolParser, so every
 * statement below holds whatever that parser does.
 */
module CommonRemote {
  import opened Wrappers

  /** The tag held in `Protocol.type`; its enumeration is not part of this model. */
  type ProtocolType = nat

  /** The fields of a parsed Protocol that remotes read. */
  datatype Protocol = Protocol(kind: ProtocolType, host: string, owner: string, repositoryName: string)

  /** `new Protocol(url)` and `protocol.update({ type })`, taken as given functions. */
  datatype ProtocolParser = ProtocolParser(
    parse: string -> Protocol,
    update: (Protocol, ProtocolType) -> Protocol)

  datatype AuthProvider = GitHub | GitHubEnterprise

  /** `Remote`: its three constructor fields; everything else is derived from them. */
  datatype Remote = Remote(remoteName: string, url: string, gitProtocol: Protocol) {

    /** `host`, `owner`, `repositoryName`: read through to the parsed protocol. */
    function Host(): (h: string)
      ensures h == gitProtocol.host
    {
      gitProtocol.host
    }

    function Owner(): (o: string)
      ensures o == gitProtocol.owner
    {
      gitProtocol.owner
    }

    function RepositoryName(): (n: string)
      ensures n == gitProtocol.repositoryName
    {
      gitProtocol.repositoryName
    }

    /**
     * `authProviderId`, with the authority of the configured enterprise URI
     * (None when none is configured) as a parameter.
     */
    function AuthProviderId(enterpriseAuthority: Option<string>): (p: AuthProvider)
      ensures p == GitHubEnterprise <==> enterpriseAuthority == Some(Host())
    {
      if enterpriseAuthority.Some? && Host() == enterpriseAuthority.value then GitHubEnterprise else GitHub
    }

    /**
     * `equals`: holds exactly when remote name, host, owner and repository
     * name all agree; the URL is not compared.
     */
    function Equals(other: Remote): (eq: bool)
      ensures eq <==>
        (remoteName, Host(), Owner(), RepositoryName()) == (other.remoteName, other.Host(), other.Owner(), other.RepositoryName())
    {
      if remoteName != other.remoteName then false
      else if Host() != other.Host() then false
      else if Owner() != other.Owner() then false
      else if RepositoryName() != other.RepositoryName() then false
      else true
    }
  }

  /** Two remotes that differ only in their URL and protocol type are equal. */
  lemma EqualsIgnoresUrlAndType(a: Remote, url: string, kind: ProtocolType)
    ensures a.Equals(a.(url := url, gitProtocol := a.gitProtocol.(kind := kind)))
  {
  }

  /** `equals` is an equivalence relation on remotes. */
  lemma EqualsIsEquivalence()
    ensures forall a: Remote :: a.Equals(a)
    ensures forall a: Remote, b: Remote :: a.Equals(b) ==> b.Equals(a)
    ensures forall a: Remote, b: Remote, c: Remote :: a.Equals(b) && b.Equals(c) ==> a.Equals(c)
  {
  }

  /** Equal remotes are served by the same authentication provider. */
  lemma EqualsKeepsAuthProvider(a: Remote, b: Remote, enterpriseAuthority: Option<string>)
    requires a.Equals(b)
    ensures a.AuthProviderId(enterpriseAuthority) == b.AuthProviderId(enterpriseAuthority)
  {
  }

  /** The Protocol `parseRemote` builds for `url`, re-typed when an original protocol is given. */
  function ProtocolFor(url: string, originalProtocol: Option<Protocol>, protocol: ProtocolParser): (p: Protocol)
    ensures originalProtocol.None? ==> p == protocol.parse(url)
    ensures originalProtocol.Some? ==> p == protocol.update(protocol.parse(url), originalProtocol.value.kind)
  {
    var p := protocol.parse(url);
    if originalProtocol.Some? then protocol.update(p, originalProtocol.value.kind) else p
  }

  /**
   * `parseRemote`: no remote for an empty URL or for a URL whose protocol has
   * no host; otherwise a remote carrying exactly the given name and URL.
   */
  function ParseRemote(remoteName: string, url: string, originalProtocol: Option<Protocol>, protocol: ProtocolParser): (r: Option<Remote>)
    ensures url == "" ==> r == None
    ensures r.Some? <==> url != "" && ProtocolFor(url, originalProtocol, protocol).host != ""
    ensures r.Some? ==> r.value.remoteName == remoteName && r.value.url == url && r.value.Host() != ""
    ensures r.Some? ==> r.value.gitProtocol == ProtocolFor(url, originalProtocol, protocol)
  {
    if url == "" then None
    else
      var gitProtocol := ProtocolFor(url, originalProtocol, protocol);
      if gitProtocol.host != "" then Some(Remote(remoteName, url, gitProtocol)) else None
  }

  /** A remote of the editor's git API (`Remote` of src/api/api.ts). */
  datatype GitRemote = GitRemote(name: string, fetchUrl: Option<string>, pushUrl: Option<string>, isReadOnly: bool)

  /** JavaScript truthiness of an optional string: present and not empty. */
  predicate Truthy(s: Option<string>) {
    s.Some? && s.value != ""
  }

  /**
   * The `urls` that `parseRepositoryRemotes` collects for one git remote: the
   * fetch URL first, then the push URL when it is set and differs from it.
   */
  function CandidateUrls(r: GitRemote): (urls: seq<string>)
    ensures |urls| <= 2
    ensures Truthy(r.fetchUrl) ==> |urls| >= 1 && urls[0] == r.fetchUrl.value
    ensures |urls| == 2 ==> urls[0] != urls[1]
    ensures forall u :: u in urls ==> u != ""
  {
    (if Truthy(r.fetchUrl) then [r.fetchUrl.value] else []) +
    (if Truthy(r.pushUrl) && r.pushUrl != r.fetchUrl then [r.pushUrl.value] else [])
  }

  /** A URL is a candidate exactly when it is the set fetch URL, or the set push URL that differs from it. */
  lemma CandidateUrlsMembers(r: GitRemote)
    ensures forall u :: u in CandidateUrls(r) <==>
      (Truthy(r.fetchUrl) && u == r.fetchUrl.value) ||
      (Truthy(r.pushUrl) && r.pushUrl != r.fetchUrl && u == r.pushUrl.value)
  {
  }

  /** `f` applied to each element of `xs`, the results concatenated in order. */
  function ConcatMap<T, U>(f: T -> seq<U>, xs: seq<T>): seq<U> {
    if xs == [] then [] else f(xs[0]) + ConcatMap(f, xs[1..])
  }

  lemma {:induction false} ConcatMapAppend<T, U>(f: T -> seq<U>, xs: seq<T>, ys: seq<T>)
    ensures ConcatMap(f, xs + ys) == ConcatMap(f, xs) + ConcatMap(f, ys)
    decreases |xs|
  {
    if xs == [] {
      assert xs + ys == ys;
    } else {
      assert (xs + ys)[0] == xs[0];
      assert (xs + ys)[1..] == xs[1..] + ys;
      ConcatMapAppend(f, xs[1..], ys);
    }
  }

  lemma ConcatMapOne<T, U>(f: T -> seq<U>, x: T)
    ensures ConcatMap(f, [x]) == f(x)
  {
    assert [x][1..] == [];
  }

  lemma {:induction false} ConcatMapBound<T, U>(f: T -> seq<U>, xs: seq<T>, c: nat)
    requires forall x :: x in xs ==> |f(x)| <= c
    ensures |ConcatMap(f, xs)| <= c * |xs|
    decreases |xs|
  {
    if xs != [] {
      var rest := xs[1..];
      forall x | x in rest ensures |f(x)| <= c {
        assert x in xs;
      }
      ConcatMapBound(f, rest, c);
      assert |f(xs[0])| <= c;
      MultiplyStep(c, |xs|);
    }
  }

  lemma MultiplyStep(c: nat, n: nat)
    requires n >= 1
    ensures c * n == c + c * (n - 1)
  {
  }

  lemma {:induction false} ConcatMapMembers<T, U>(f: T -> seq<U>, xs: seq<T>)
    ensures forall y :: y in ConcatMap(f, xs) <==> exists i :: 0 <= i < |xs| && y in f(xs[i])
    decreases |xs|
  {
    if xs != [] {
      ConcatMapMembers(f, xs[1..]);
      forall y ensures y in ConcatMap(f, xs) <==> exists i :: 0 <= i < |xs| && y in f(xs[i]) {
        if exists i :: 0 <= i < |xs[1..]| && y in f(xs[1..][i]) {
          var i :| 0 <= i < |xs[1..]| && y in f(xs[1..][i]);
          assert xs[i + 1] == xs[1..][i];
        }
        if exists i :: 0 <= i < |xs| && y in f(xs[i]) {
          var i :| 0 <= i < |xs| && y in f(xs[i]);
          if i > 0 {
            assert xs[1..][i - 1] == xs[i];
          }
        }
      }
    }
  }

  /** The remote, if any, that `parseRemote` makes of one URL: the body of the `forEach`. */
  function ParsedUrl(name: string, url: string, protocol: ProtocolParser): (rs: seq<Remote>)
    ensures |rs| <= 1
  {
    var remote := ParseRemote(name, url, None, protocol);
    if remote.Some? then [remote.value] else []
  }

  /** The remotes parsed, in order, from `urls` under the name `name`. */
  function ParsedUrls(name: string, urls: seq<string>, protocol: ProtocolParser): seq<Remote> {
    ConcatMap(url => ParsedUrl(name, url, protocol), urls)
  }

  /** The remotes `parseRepositoryRemotes` makes from one git remote. */
  function RemotesOf(r: GitRemote, protocol: ProtocolParser): seq<Remote> {
    ParsedUrls(r.name, CandidateUrls(r), protocol)
  }

  /** What `parseRepositoryRemotes` returns for the git remotes `rs`. */
  function ParsedRemotes(rs: seq<GitRemote>, protocol: ProtocolParser): seq<Remote> {
    ConcatMap(r => RemotesOf(r, protocol), rs)
  }

  /** The `urls` array of `parseRepositoryRemotes`, filled by its two conditional pushes. */
  method CollectUrls(r: GitRemote) returns (urls: seq<string>)
    ensures urls == CandidateUrls(r)
  {
    urls := [];
    if Truthy(r.fetchUrl) {
      urls := urls + [r.fetchUrl.value];
    }
    if Truthy(r.pushUrl) && r.pushUrl != r.fetchUrl {
      urls := urls + [r.pushUrl.value];
    }
  }

  /**
   * The `urls.forEach` of `parseRepositoryRemotes`: each URL that parses is
   * pushed onto `remotes`, in order.
   */
  method PushParsedUrls(remotes: seq<Remote>, name: string, urls: seq<string>, protocol: ProtocolParser)
    returns (pushed: seq<Remote>)
    ensures pushed == remotes + ParsedUrls(name, urls, protocol)
  {
    pushed := remotes;
    for k := 0 to |urls|
      invariant pushed == remotes + ParsedUrls(name, urls[..k], protocol)
    {
      var remote := ParseRemote(name, urls[k], None, protocol);
      ParsedUrlsStep(name, urls, k, protocol);
      if remote.Some? {
        assert (remotes + ParsedUrls(name, urls[..k], protocol)) + [remote.value] ==
          remotes + (ParsedUrls(name, urls[..k], protocol) + [remote.value]);
        pushed := pushed + [remote.value];
      } else {
        assert ParsedUrls(name, urls[..k], protocol) + [] == ParsedUrls(name, urls[..k], protocol);
      }
    }
    assert urls[..|urls|] == urls;
  }

  /** `parseRepositoryRemotes`, over the remotes of `repository.state`. */
  method ParseRepositoryRemotes(repositoryRemotes: seq<GitRemote>, protocol: ProtocolParser) returns (remotes: seq<Remote>)
    ensures remotes == ParsedRemotes(repositoryRemotes, protocol)
  {
    remotes := [];
    for i := 0 to |repositoryRemotes|
      invariant remotes == ParsedRemotes(repositoryRemotes[..i], protocol)
    {
      var r := repositoryRemotes[i];
      var urls := CollectUrls(r);
      remotes := PushParsedUrls(remotes, r.name, urls, protocol);
      ParsedRemotesStep(repositoryRemotes, i, protocol);
    }
    assert repositoryRemotes[..|repositoryRemotes|] == repositoryRemotes;
  }

  /** Parsing two URL lists one after the other gives the parse of their concatenation. */
  lemma ParsedUrlsAppend(name: string, u: seq<string>, v: seq<string>, protocol: ProtocolParser)
    ensures ParsedUrls(name, u + v, protocol) == ParsedUrls(name, u, protocol) + ParsedUrls(name, v, protocol)
  {
    ConcatMapAppend(url => ParsedUrl(name, url, protocol), u, v);
  }

  /** The output follows the input order: the remotes of `a` come before those of `b`. */
  lemma ParsedRemotesAppend(a: seq<GitRemote>, b: seq<GitRemote>, protocol: ProtocolParser)
    ensures ParsedRemotes(a + b, protocol) == ParsedRemotes(a, protocol) + ParsedRemotes(b, protocol)
  {
    ConcatMapAppend(r => RemotesOf(r, protocol), a, b);
  }

  /** One more URL parsed: the step of the loop in `PushParsedUrls`. */
  lemma ParsedUrlsStep(name: string, urls: seq<string>, k: nat, protocol: ProtocolParser)
    requires k < |urls|
    ensures ParsedUrls(name, urls[..k + 1], protocol) == ParsedUrls(name, urls[..k], protocol) + ParsedUrl(name, urls[k], protocol)
  {
    assert urls[..k + 1] == urls[..k] + [urls[k]];
    ParsedUrlsAppend(name, urls[..k], [urls[k]], protocol);
    ConcatMapOne(url => ParsedUrl(name, url, protocol), urls[k]);
  }

  /** One more git remote walked: the step of the loop in `ParseRepositoryRemotes`. */
  lemma ParsedRemotesStep(rs: seq<GitRemote>, i: nat, protocol: ProtocolParser)
    requires i < |rs|
    ensures ParsedRemotes(rs[..i + 1], protocol) == ParsedRemotes(rs[..i], protocol) + RemotesOf(rs[i], protocol)
  {
    assert rs[..i + 1] == rs[..i] + [rs[i]];
    ParsedRemotesAppend(rs[..i], [rs[i]], protocol);
    ConcatMapOne(r => RemotesOf(r, protocol), rs[i]);
  }

  /** One git remote yields its fetch remote and then its push remote, each only if it parses. */
  lemma FetchThenPush(r: GitRemote, protocol: ProtocolParser)
    ensures ParsedRemotes([r], protocol) ==
      (if Truthy(r.fetchUrl) && protocol.parse(r.fetchUrl.value).host != ""
       then [Remote(r.name, r.fetchUrl.value, protocol.parse(r.fetchUrl.value))] else []) +
      (if Truthy(r.pushUrl) && r.pushUrl != r.fetchUrl && protocol.parse(r.pushUrl.value).host != ""
       then [Remote(r.name, r.pushUrl.value, protocol.parse(r.pushUrl.value))] else [])
  {
    var f := url => ParsedUrl(r.name, url, protocol);
    ConcatMapOne(r' => RemotesOf(r', protocol), r);
    var fetch := if Truthy(r.fetchUrl) then [r.fetchUrl.value] else [];
    var push := if Truthy(r.pushUrl) && r.pushUrl != r.fetchUrl then [r.pushUrl.value] else [];
    assert CandidateUrls(r) == fetch + push;
    ConcatMapAppend(f, fetch, push);
    if fetch != [] { ConcatMapOne(f, r.fetchUrl.value); }
    if push != [] { ConcatMapOne(f, r.pushUrl.value); }
  }

  /** At most two remotes come out per git remote. */
  lemma ParsedRemotesBound(rs: seq<GitRemote>, protocol: ProtocolParser)
    ensures |ParsedRemotes(rs, protocol)| <= 2 * |rs|
  {
    forall r | r in rs ensures |RemotesOf(r, protocol)| <= 2 {
      var urls := CandidateUrls(r);
      forall u | u in urls ensures |ParsedUrl(r.name, u, protocol)| <= 1 { }
      ConcatMapBound(url => ParsedUrl(r.name, url, protocol), urls, 1);
    }
    ConcatMapBound(r => RemotesOf(r, protocol), rs, 2);
  }

  /** The remotes parsed from `urls` are exactly those of its URLs that parse with a host. */
  lemma ParsedUrlsExactly(name: string, urls: seq<string>, protocol: ProtocolParser)
    requires forall u :: u in urls ==> u != ""
    ensures forall x :: x in ParsedUrls(name, urls, protocol) <==>
      x.remoteName == name && x.url in urls && x.gitProtocol == protocol.parse(x.url) && x.Host() != ""
  {
    ConcatMapMembers(url => ParsedUrl(name, url, protocol), urls);
  }

  /** `x` is one of the remotes `parseRepositoryRemotes` makes from git remote `r`. */
  predicate ProducedBy(x: Remote, r: GitRemote, protocol: ProtocolParser) {
    x.remoteName == r.name && x.url in CandidateUrls(r) && x.gitProtocol == protocol.parse(x.url) && x.Host() != ""
  }

  /**
   * Provenance and completeness: a remote is in the output exactly when it
   * carries the name of some git remote, one of that remote's candidate URLs,
   * and the protocol parsed from that URL, which has a host.
   */
  lemma ParsedRemotesExactly(rs: seq<GitRemote>, protocol: ProtocolParser)
    ensures forall x :: x in ParsedRemotes(rs, protocol) <==> exists i :: 0 <= i < |rs| && ProducedBy(x, rs[i], protocol)
  {
    ConcatMapMembers(r => RemotesOf(r, protocol), rs);
    forall r | r in rs ensures forall x :: x in RemotesOf(r, protocol) <==> ProducedBy(x, r, protocol) {
      ParsedUrlsExactly(r.name, CandidateUrls(r), protocol);
    }
  }
}
