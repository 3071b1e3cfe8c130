/**
 * src/bytelegend/utils.ts: the three substring helpers, the owner /
 * repository / number extraction that `fetchPullRequestModel` performs on a
 * pull-request page URL, and the fixed shapes of the stub git repository and
 * git provider registered for ByteLegend.
 */
module ByteLegendUtils {
  import opened JsStrings
  import opened CommonRemote
  import opened ByteLegendRemotes

  /**
   * `substringBeforeLast`: the text before the last occurrence of `target`,
   * or `str` itself when `target` does not occur.
   */
  function SubstringBeforeLast(str: string, target: string): (r: string)
    ensures |r| <= |str|
    ensures !Occurs(str, target) ==> r == str
    ensures Occurs(str, target) ==>
      r + target <= str && forall j :: |r| < j ==> !OccursAt(str, target, j)
  {
    var index := LastIndexOf(str, target);
    if index == -1 then str else str[..index]
  }

  /**
   * `substringAfterLast`: the suffix of `str` after the last occurrence of
   * `target`, or `str` itself when `target` does not occur.
   */
  function SubstringAfterLast(str: string, target: string): (r: string)
    ensures |r| <= |str|
    ensures !Occurs(str, target) ==> r == str
    ensures Occurs(str, target) ==>
      var k := |str| - |r| - |target|;
      OccursAt(str, target, k) && r == str[k + |target|..] && forall j :: k < j ==> !OccursAt(str, target, j)
  {
    var index := LastIndexOf(str, target);
    if index == -1 then str else str[index + |target|..]
  }

  /**
   * `substringAfter`: the suffix of `str` after the first occurrence of
   * `target`, or `str` itself when `target` does not occur.
   */
  function SubstringAfter(str: string, target: string): (r: string)
    ensures |r| <= |str|
    ensures !Occurs(str, target) ==> r == str
    ensures Occurs(str, target) ==>
      var k := |str| - |r| - |target|;
      OccursAt(str, target, k) && r == str[k + |target|..] && forall j :: j < k ==> !OccursAt(str, target, j)
  {
    var index := IndexOf(str, target);
    if index == -1 then str else str[index + |target|..]
  }

  /** The helpers on a given occurrence: the first one for `substringAfter`. */
  lemma SubstringAfterAt(str: string, target: string, k: int)
    requires OccursAt(str, target, k)
    requires forall j :: j < k ==> !OccursAt(str, target, j)
    ensures SubstringAfter(str, target) == str[k + |target|..]
  {
    IndexOfIs(str, target, k);
  }

  /** The helpers on a given occurrence: the last one for the two `...Last` helpers. */
  lemma SubstringLastAt(str: string, target: string, k: int)
    requires OccursAt(str, target, k)
    requires forall j :: k < j ==> !OccursAt(str, target, j)
    ensures SubstringBeforeLast(str, target) == str[..k]
    ensures SubstringAfterLast(str, target) == str[k + |target|..]
  {
    LastIndexOfIs(str, target, k);
  }

  /** '/' occurs in `s` exactly at the positions holding '/'. */
  lemma SlashOccurrences(s: string)
    ensures forall j :: OccursAt(s, "/", j) <==> 0 <= j < |s| && s[j] == '/'
  {
    forall j ensures OccursAt(s, "/", j) <==> 0 <= j < |s| && s[j] == '/' {
      OccursAtChar(s, '/', j);
    }
  }

  /**
   * A remote's `name` splits back into its parts the way
   * `fetchPullRequestModel` splits "owner/repo": text before the last '/'
   * and text after the first '/'.
   */
  lemma NameSplitsBack(owner: string, repo: string)
    requires SlashFree(owner) && SlashFree(repo)
    ensures SubstringBeforeLast(owner + "/" + repo, "/") == owner
    ensures SubstringAfter(owner + "/" + repo, "/") == repo
  {
    var s := owner + "/" + repo;
    SlashOccurrences(s);
    assert s[|owner|] == '/';
    forall j | j != |owner| && 0 <= j < |s| ensures s[j] != '/' {
      if j < |owner| { assert s[j] == owner[j]; } else { assert s[j] == repo[j - |owner| - 1]; }
    }
    SubstringLastAt(s, "/", |owner|);
    SubstringAfterAt(s, "/", |owner|);
    assert s[..|owner|] == owner;
    assert s[|owner| + 1..] == repo;
  }

  /** `s` is made of decimal digits only, as `parseInt` expects of a pull-request number. */
  predicate IsDigits(s: string) {
    forall i :: 0 <= i < |s| ==> '0' <= s[i] <= '9'
  }

  /** What `fetchPullRequestModel` extracts from a pull-request page URL. */
  datatype PullRequestCoordinates = PullRequestCoordinates(owner: string, repositoryName: string, number: string)

  /**
   * The extraction of `fetchPullRequestModel`: owner and repository from the
   * text between "github.com/" and the last "/pull", the number as the text
   * after the last '/' (the text `parseInt` is applied to).
   */
  function PullRequestCoordinatesOf(htmlUrl: string): (c: PullRequestCoordinates)
    ensures |c.owner| <= |htmlUrl| && |c.repositoryName| <= |htmlUrl| && |c.number| <= |htmlUrl|
  {
    var ownerAndRepo := SubstringBeforeLast(SubstringAfter(htmlUrl, "github.com/"), "/pull");
    PullRequestCoordinates(
      SubstringBeforeLast(ownerAndRepo, "/"),
      SubstringAfter(ownerAndRepo, "/"),
      SubstringAfterLast(htmlUrl, "/"))
  }

  /** In a URL starting "https://github.com/", the first "github.com/" is that one. */
  lemma AfterGitHubDotCom(url: string)
    requires |url| >= 19 && url[..19] == "https://github.com/"
    ensures SubstringAfter(url, "github.com/") == url[19..]
  {
    assert url[8..8 + 11] == url[..19][8..19];
    forall j | j < 8 ensures !OccursAt(url, "github.com/", j) {
      if 0 <= j && j + 11 <= |url| {
        assert url[j] == url[..19][j];
        assert url[j..j + 11][0] == url[j];
      }
    }
    SubstringAfterAt(url, "github.com/", 8);
  }

  /** In p + "/pull/" + n with n digits, the last "/pull" is the one right after p. */
  lemma LastPull(p: string, n: string)
    requires IsDigits(n)
    ensures SubstringBeforeLast(p + "/pull/" + n, "/pull") == p
  {
    var s := p + "/pull/" + n;
    var k := |p|;
    assert s[k..k + 5] == "/pull";
    forall j | k < j ensures !OccursAt(s, "/pull", j) {
      if j + 5 <= |s| {
        assert s[j..j + 5][0] == s[j];
        assert s[j..j + 5][1] == s[j + 1];
        if j <= k + 4 {
          assert s[j] != '/';
        } else if j == k + 5 {
          assert s[j + 1] == n[0];
        } else {
          assert s[j] == n[j - k - 6];
        }
      }
    }
    SubstringLastAt(s, "/pull", k);
    assert s[..k] == p;
  }

  /** When the text after a '/' holds no '/', it is what follows the last '/'. */
  lemma AfterLastSlash(s: string, k: int)
    requires 0 <= k < |s| && s[k] == '/' && SlashFree(s[k + 1..])
    ensures SubstringAfterLast(s, "/") == s[k + 1..]
  {
    SlashOccurrences(s);
    forall j | k < j < |s| ensures s[j] != '/' {
      assert s[j] == s[k + 1..][j - k - 1];
    }
    SubstringLastAt(s, "/", k);
  }

  /** A pull-request page URL is the GitHub prefix followed by "O/R/pull/N". */
  lemma PullRequestUrlParts(owner: string, repo: string, number: string)
    ensures var url := "https://github.com/" + owner + "/" + repo + "/pull/" + number;
      |url| >= 19 && url[..19] == "https://github.com/" && url[19..] == owner + "/" + repo + "/pull/" + number
  {
    var url := "https://github.com/" + owner + "/" + repo + "/pull/" + number;
    assert url == "https://github.com/" + (owner + "/" + repo + "/pull/" + number);
  }

  /** The owner-and-repository text of a pull-request page URL. */
  lemma OwnerAndRepoOfUrl(owner: string, repo: string, number: string)
    requires IsDigits(number)
    ensures SubstringBeforeLast(SubstringAfter("https://github.com/" + owner + "/" + repo + "/pull/" + number, "github.com/"), "/pull")
      == owner + "/" + repo
  {
    var url := "https://github.com/" + owner + "/" + repo + "/pull/" + number;
    PullRequestUrlParts(owner, repo, number);
    AfterGitHubDotCom(url);
    LastPull(owner + "/" + repo, number);
  }

  /** The number text of a pull-request page URL. */
  lemma NumberOfUrl(owner: string, repo: string, number: string)
    requires IsDigits(number)
    ensures SubstringAfterLast("https://github.com/" + owner + "/" + repo + "/pull/" + number, "/") == number
  {
    var url := "https://github.com/" + owner + "/" + repo + "/pull/" + number;
    var k := |url| - |number| - 1;
    assert url[k] == '/';
    assert url[k + 1..] == number;
    assert SlashFree(number) by {
      forall i | 0 <= i < |number| ensures number[i] != '/' { }
    }
    AfterLastSlash(url, k);
  }

  /**
   * For a URL "https://github.com/O/R/pull/N" with O and R free of '/' and N a
   * digit string, the extraction yields owner O, repository R and number N.
   */
  lemma ExtractFromPullRequestUrl(owner: string, repo: string, number: string)
    requires SlashFree(owner) && SlashFree(repo) && IsDigits(number)
    ensures PullRequestCoordinatesOf("https://github.com/" + owner + "/" + repo + "/pull/" + number) ==
      PullRequestCoordinates(owner, repo, number)
  {
    OwnerAndRepoOfUrl(owner, repo, number);
    NumberOfUrl(owner, repo, number);
    NameSplitsBack(owner, repo);
  }

  /**
   * Round trip with src/bytelegend/remote.ts: the pull-request page of a
   * ByteLegend remote leads back to a remote equal to it.
   */
  lemma PullRequestUrlRoundTrip(remote: ByteLegendRemote, number: string)
    requires SlashFree(remote.owner) && SlashFree(remote.repositoryName) && IsDigits(number)
    ensures var c := PullRequestCoordinatesOf(remote.Url() + "/pull/" + number);
      c == PullRequestCoordinates(remote.owner, remote.repositoryName, number) &&
      GetByteLegendRemote(c.owner, c.repositoryName) == remote
  {
    ExtractFromPullRequestUrl(remote.owner, remote.repositoryName, number);
  }

  /** `ByteLegendRepositoryState`: holds the remotes it was constructed with. */
  datatype ByteLegendRepositoryState = ByteLegendRepositoryState(remotes: seq<ByteLegendRemote>) {

    /** The `remotes` getter, seen through the editor's git API. */
    function GitRemotes(): (rs: seq<GitRemote>)
      ensures |rs| == |remotes|
      ensures forall i :: 0 <= i < |rs| ==> rs[i] == remotes[i].AsGitRemote()
    {
      seq(|remotes|, i requires 0 <= i < |remotes| => remotes[i].AsGitRemote())
    }
  }

  /**
   * `ByteLegendGitRepository`: its state and the authority of its root URI
   * ("github1s:/" with that authority); all of its other members only throw.
   */
  datatype ByteLegendGitRepository = ByteLegendGitRepository(state: ByteLegendRepositoryState, rootAuthority: string)

  /** The `ByteLegendGitRepository` constructor. */
  function NewByteLegendGitRepository(remote: ByteLegendRemote): (repo: ByteLegendGitRepository)
    ensures repo.state.remotes == [remote]
    ensures repo.rootAuthority == remote.owner + "+" + remote.repositoryName + "+main"
  {
    ByteLegendGitRepository(
      ByteLegendRepositoryState([remote]),
      remote.owner + "+" + remote.repositoryName + "+main")
  }

  /** For owners without '+', the root authority identifies the remote. */
  lemma RootAuthorityInjective(a: ByteLegendRemote, b: ByteLegendRemote)
    requires '+' !in a.owner && '+' !in b.owner
    requires NewByteLegendGitRepository(a).rootAuthority == NewByteLegendGitRepository(b).rootAuthority
    ensures a == b
  {
    assert a.owner + "+" + a.repositoryName + "+main" == a.owner + ['+'] + (a.repositoryName + "+main");
    assert b.owner + "+" + b.repositoryName + "+main" == b.owner + ['+'] + (b.repositoryName + "+main");
    JoinInjective(a.owner, a.repositoryName + "+main", b.owner, b.repositoryName + "+main", '+');
    assert a.repositoryName == (a.repositoryName + "+main")[..|a.repositoryName|];
    assert b.repositoryName == (b.repositoryName + "+main")[..|b.repositoryName|];
  }

  /**
   * Across the files: `parseRepositoryRemotes` finds no remote at all in the
   * ByteLegend repository, because its one remote has neither a fetch nor a
   * push URL.
   */
  lemma ByteLegendRepositoryParsesToNothing(remote: ByteLegendRemote, protocol: ProtocolParser)
    ensures ParsedRemotes(NewByteLegendGitRepository(remote).state.GitRemotes(), protocol) == []
  {
    var rs := NewByteLegendGitRepository(remote).state.GitRemotes();
    assert rs == [remote.AsGitRemote()];
    FetchThenPush(remote.AsGitRemote(), protocol);
  }

  /** `ByteLegendGit`: the git provider wrapping the one repository. */
  datatype ByteLegendGit = ByteLegendGit(repository: ByteLegendGitRepository) {

    /** `repositories`: exactly the wrapped repository. */
    function Repositories(): (rs: seq<ByteLegendGitRepository>)
      ensures rs == [repository]
    {
      [repository]
    }

    /** `state`: always "initialized". */
    function State(): (s: string)
      ensures s == "initialized"
    {
      "initialized"
    }
  }

  /** The provider registered for a remote lists one repository, holding exactly that remote. */
  lemma RegisteredProviderShape(remote: ByteLegendRemote)
    ensures var git := ByteLegendGit(NewByteLegendGitRepository(remote));
      |git.Repositories()| == 1 && git.Repositories()[0].state.remotes == [remote] &&
      git.State() == "initialized"
  {
  }
}
