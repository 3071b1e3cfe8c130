/**
 * The ByteLegend remote of src/bytelegend/remote.ts: a fixed-format remote
 * built from an owner and a repository name, pointing at the ByteLegend API
 * host.
 */
module ByteLegendRemotes {
  import opened Wrappers
  import opened CommonRemote
  import JsStrings

  const GitHubPrefix: string := "https://github.com/"
  const ByteLegendHost: string := "ghapi.bytelegend.com"

  /** `s` contains no '/'. */
  predicate SlashFree(s: string) {
    '/' !in s
  }

  /** `ByteLegendRemote`: only the owner and repository name are stored. */
  datatype ByteLegendRemote = ByteLegendRemote(owner: string, repositoryName: string) {

    /** `name`: the owner, a '/', then the repository name. */
    function Name(): (n: string)
      ensures |n| == |owner| + 1 + |repositoryName|
      ensures n[..|owner|] == owner && n[|owner|] == '/' && n[|owner| + 1..] == repositoryName
    {
      owner + "/" + repositoryName
    }

    /** `remoteName`: the same text as `name`. */
    function RemoteName(): (n: string)
      ensures n == Name()
    {
      owner + "/" + repositoryName
    }

    /** `url`: the repository's page on GitHub. */
    function Url(): (u: string)
      ensures u == GitHubPrefix + Name()
    {
      "https://github.com/" + owner + "/" + repositoryName
    }

    /** The URL `gitProtocol` is built from: the clone URL ending in ".git". */
    function GitProtocolUrl(): (u: string)
      ensures u == Url() + ".git"
    {
      "https://github.com/" + owner + "/" + repositoryName + ".git"
    }

    /** `gitProtocol`: the clone URL given to the (abstract) Protocol parser. */
    function GitProtocol(protocol: ProtocolParser): (p: Protocol)
      ensures p == protocol.parse(Url() + ".git")
    {
      protocol.parse(GitProtocolUrl())
    }

    /** `host`: the ByteLegend API host, whatever the owner and repository. */
    function Host(): (h: string)
      ensures h == ByteLegendHost
    {
      "ghapi.bytelegend.com"
    }

    /** `normalizedHost`: always throws. */
    function NormalizedHost(): (r: Result<string, string>)
      ensures r.Failure?
    {
      Failure("normalizedHost not implemented.")
    }

    /** `authProviderId`: always GitHub. */
    function AuthProviderId(): (p: AuthProvider)
      ensures p == GitHub
    {
      GitHub
    }

    /** `isReadOnly`: initialised to true and never reassigned. */
    function IsReadOnly(): (b: bool)
      ensures b
    {
      true
    }

    /** `fetchUrl` and `pushUrl`: declared but never assigned, so undefined. */
    function FetchUrl(): (u: Option<string>)
      ensures u.None?
    {
      None
    }

    function PushUrl(): (u: Option<string>)
      ensures u.None?
    {
      None
    }

    /** This remote as a remote of the editor's git API. */
    function AsGitRemote(): (g: GitRemote)
      ensures g.name == Name() && g.isReadOnly
      ensures !Truthy(g.fetchUrl) && !Truthy(g.pushUrl)
    {
      GitRemote(Name(), FetchUrl(), PushUrl(), IsReadOnly())
    }

    /**
     * `equals`: the other remote's `url` is this one's. Against another
     * ByteLegend remote that means the same name; against a generic remote,
     * its stored URL is this remote's GitHub page.
     */
    function Equals(other: IRemote): (eq: bool)
      ensures other.ByteLegend? ==> (eq <==> Name() == other.byteLegend.Name())
      ensures other.Generic? ==> (eq <==> other.remote.url == GitHubPrefix + Name())
    {
      assert other.ByteLegend? ==> Url()[|GitHubPrefix|..] == Name() && other.Url()[|GitHubPrefix|..] == other.byteLegend.Name();
      Url() == other.Url()
    }
  }

  /** Any implementation of `IRemote`: a generic remote or a ByteLegend remote. */
  datatype IRemote = Generic(remote: Remote) | ByteLegend(byteLegend: ByteLegendRemote) {
    function Url(): string {
      match this
      case Generic(r) => r.url
      case ByteLegend(b) => b.Url()
    }
  }

  /** `getByteLegendRemote`: a remote for exactly the given owner and repository. */
  function GetByteLegendRemote(owner: string, repo: string): (r: ByteLegendRemote)
    ensures r.owner == owner && r.repositoryName == repo
  {
    ByteLegendRemote(owner, repo)
  }

  /** `equals` between ByteLegend remotes is an equivalence relation. */
  lemma EqualsIsEquivalence(a: ByteLegendRemote, b: ByteLegendRemote, c: ByteLegendRemote)
    ensures a.Equals(ByteLegend(a))
    ensures a.Equals(ByteLegend(b)) ==> b.Equals(ByteLegend(a))
    ensures a.Equals(ByteLegend(b)) && b.Equals(ByteLegend(c)) ==> a.Equals(ByteLegend(c))
  {
  }

  /**
   * For owners without '/', the URL determines owner and repository, so
   * `equals` between ByteLegend remotes is equality of the pair.
   */
  lemma UrlInjective(a: ByteLegendRemote, b: ByteLegendRemote)
    requires SlashFree(a.owner) && SlashFree(b.owner)
    ensures a.Equals(ByteLegend(b)) <==> a == b
  {
    if a.Url() == b.Url() {
      assert GitHubPrefix + (a.owner + "/" + a.repositoryName) == a.Url();
      assert GitHubPrefix + (b.owner + "/" + b.repositoryName) == b.Url();
      assert a.owner + "/" + a.repositoryName == a.Url()[|GitHubPrefix|..];
      assert b.owner + "/" + b.repositoryName == b.Url()[|GitHubPrefix|..];
      JsStrings.JoinInjective(a.owner, a.repositoryName, b.owner, b.repositoryName, '/');
    }
  }

  /** Without the '/' restriction the URL is ambiguous: two different remotes share one. */
  lemma UrlAmbiguousWithSlashes()
    ensures ByteLegendRemote("a/b", "c").Equals(ByteLegend(ByteLegendRemote("a", "b/c")))
    ensures ByteLegendRemote("a/b", "c") != ByteLegendRemote("a", "b/c")
  {
  }
}
