/** extract_repo_details: the owner and name of a repository from its web URL. */
module RepoUrl {
  import opened Wrappers
  import opened Strings

  /** The path segment that marks a repository host URL. */
  const HOST: string := "github.com"

  /** The ValueError raised for a URL that is not accepted. */
  const INVALID_URL: string := "Invalid GitHub repository URL"

  /** The '/'-separated segments of the URL, trailing '/' characters removed first. */
  function Segments(url: string): seq<string>
  {
    Split(RStrip(url, '/'), '/')
  }

  /** extract_repo_details: the last two segments, when there are at least two and one of
      them is exactly HOST. The URL is accepted exactly when, after removing its trailing
      '/' characters, it still holds a '/' and one of its segments is exactly HOST
      (containing HOST as a substring of a segment is not enough); otherwise the error is
      INVALID_URL. An accepted URL's owner and name are whole segments: both are free of
      '/', the stripped URL ends with owner + "/" + name, and the owner starts the stripped
      URL or follows a '/'. */
  function ExtractRepoDetails(url: string): (r: Result<(string, string), string>)
    ensures var stripped := RStrip(url, '/');
      && (r.Ok? <==> '/' in stripped && HOST in Split(stripped, '/'))
      && (r.Err? ==> r.error == INVALID_URL)
      && (r.Ok? ==> WholeSegments(stripped, r.value.0, r.value.1))
  {
    var stripped := RStrip(url, '/');
    var parts := Split(stripped, '/');
    LastTwoSegments(stripped);
    if |parts| < 2 || HOST !in parts then Err(INVALID_URL)
    else Ok((parts[|parts| - 2], parts[|parts| - 1]))
  }

  /** `owner` and `name` are the last two whole segments of `stripped`: both free of '/',
      ending `stripped` with a '/' between them, and `owner` starts `stripped` or follows
      a '/'. */
  ghost predicate WholeSegments(stripped: string, owner: string, name: string)
  {
    var k := |owner| + |name| + 1;
    && '/' !in owner && '/' !in name
    && k <= |stripped|
    && stripped[|stripped| - k..] == owner + "/" + name
    && (|stripped| == k || stripped[|stripped| - k - 1] == '/')
  }

  /** A split has at least two pieces exactly when the separator occurs, and then its
      last two pieces are the last two whole segments. */
  lemma LastTwoSegments(stripped: string)
    ensures var parts := Split(stripped, '/');
      && (|parts| >= 2 <==> '/' in stripped)
      && (|parts| >= 2 ==> WholeSegments(stripped, parts[|parts| - 2], parts[|parts| - 1]))
  {
    SplitCount(stripped, '/');
    var parts := Split(stripped, '/');
    if |parts| < 2 {
      return;
    }
    SplitSeparatorFree(stripped, '/');
    SplitJoinBack(stripped, '/');
    JoinLastTwo(parts, '/');
    JoinLastTwoBoundary(parts, '/');
    var n := |parts|;
    assert '/' !in parts[n - 2] && '/' !in parts[n - 1];
    assert parts[n - 2] + ['/'] + parts[n - 1] == parts[n - 2] + "/" + parts[n - 1];
  }

  /** A joined sequence of at least two parts ends with its last two parts and the separator
      between them. */
  lemma {:induction false} JoinLastTwo(parts: seq<string>, sep: char)
    requires |parts| >= 2
    ensures var s, n := Join(parts, sep), |parts|;
      |parts[n - 2]| + |parts[n - 1]| + 1 <= |s|
      && s[|s| - |parts[n - 2]| - |parts[n - 1]| - 1..] == parts[n - 2] + [sep] + parts[n - 1]
    decreases |parts|
  {
    if |parts| == 2 {
      assert Join(parts[1..], sep) == parts[1];
    } else {
      var rest := parts[1..];
      JoinLastTwo(rest, sep);
      var s, t := Join(parts, sep), Join(rest, sep);
      var tailPart := parts[|parts| - 2] + [sep] + parts[|parts| - 1];
      assert s == parts[0] + [sep] + t;
      assert t[|t| - |tailPart|..] == tailPart;
      assert s[|s| - |tailPart|..] == t[|t| - |tailPart|..];
    }
  }

  /** In a joined sequence, the second-last part starts the joined text when there are
      only two parts, and follows a separator otherwise. */
  lemma {:induction false} JoinLastTwoBoundary(parts: seq<string>, sep: char)
    requires |parts| >= 2
    ensures var s, n := Join(parts, sep), |parts|;
      var k := |parts[n - 2]| + |parts[n - 1]| + 1;
      && (n == 2 ==> |s| == k)
      && (n > 2 ==> k < |s| && s[|s| - k - 1] == sep)
    decreases |parts|
  {
    var rest := parts[1..];
    if |parts| == 2 {
      assert Join(rest, sep) == parts[1];
    } else {
      var n := |parts|;
      var k := |parts[n - 2]| + |parts[n - 1]| + 1;
      var s, t := Join(parts, sep), Join(rest, sep);
      assert s == parts[0] + [sep] + t;
      JoinLastTwoBoundary(rest, sep);
      assert rest[|rest| - 2] == parts[n - 2] && rest[|rest| - 1] == parts[n - 1];
      if |rest| == 2 {
        assert |t| == k;
      } else {
        assert s[|s| - k - 1] == t[|t| - k - 1];
      }
    }
  }

  /** The segments of a URL whose stripped form is the join of separator-free parts are
      those parts. */
  lemma SegmentsOf(url: string, parts: seq<string>)
    requires |parts| >= 1
    requires SeparatorFree(parts, '/')
    requires RStrip(url, '/') == Join(parts, '/')
    ensures Segments(url) == parts
  {
    SplitJoin(parts, '/');
  }

  /** Removing trailing '/' characters from a URL that ends in at most one of them. */
  lemma StripOne(stripped: string, trailing: bool)
    requires |stripped| > 0 && stripped[|stripped| - 1] != '/'
    ensures RStrip(stripped + (if trailing then "/" else ""), '/') == stripped
  {
    var url := stripped + (if trailing then "/" else "");
    if trailing {
      assert url[..|url| - 1] == stripped;
    } else {
      assert url == stripped;
    }
  }

  /** Five parts joined with '/'. */
  lemma JoinFive(a: string, b: string, c: string, d: string, e: string)
    ensures Join([a, b, c, d, e], '/') == a + "/" + b + "/" + c + "/" + d + "/" + e
  {
    JoinCons(d, [e], '/');
    JoinCons(c, [d, e], '/');
    JoinCons(b, [c, d, e], '/');
    JoinCons(a, [b, c, d, e], '/');
    assert [d] + [e] == [d, e];
    assert [c] + [d, e] == [c, d, e];
    assert [b] + [c, d, e] == [b, c, d, e];
    assert [a] + [b, c, d, e] == [a, b, c, d, e];
  }

  /** The segments of "https://" + host + "/" + owner + "/" + name, for a host, owner and
      name free of '/' and a nonempty name, with or without one trailing '/'. */
  lemma UrlSegments(host: string, owner: string, name: string, trailing: bool)
    requires '/' !in host && '/' !in owner && '/' !in name && |name| > 0
    ensures var url := "https://" + host + "/" + owner + "/" + name + (if trailing then "/" else "");
      Segments(url) == ["https:", "", host, owner, name]
  {
    var stripped := "https://" + host + "/" + owner + "/" + name;
    var url := stripped + (if trailing then "/" else "");
    assert stripped[|stripped| - 1] == name[|name| - 1];
    StripOne(stripped, trailing);
    JoinFive("https:", "", host, owner, name);
    assert "https:" + "/" + "" + "/" == "https://";
    var parts := ["https:", "", host, owner, name];
    assert SeparatorFree(parts, '/') by {
      assert '/' !in "https:";
    }
    SegmentsOf(url, parts);
  }

  /** A repository URL, with or without a trailing slash, gives its owner and name. */
  lemma AcceptsRepositoryUrl(owner: string, name: string, trailing: bool)
    requires '/' !in owner && '/' !in name && |name| > 0
    ensures ExtractRepoDetails("https://" + HOST + "/" + owner + "/" + name
                               + (if trailing then "/" else "")) == Ok((owner, name))
  {
    UrlSegments(HOST, owner, name, trailing);
  }

  /** A host that only contains HOST as a substring is refused, unless the owner or name
      happens to be HOST itself. */
  lemma RefusesLookalikeHost(owner: string, name: string)
    requires '/' !in owner && '/' !in name && |name| > 0
    requires owner != HOST && name != HOST
    ensures ExtractRepoDetails("https://" + "github.company" + "/" + owner + "/" + name) == Err(INVALID_URL)
  {
    var url := "https://" + "github.company" + "/" + owner + "/" + name;
    UrlSegments("github.company", owner, name, false);
    assert url + "" == url;
    assert HOST != "github.company" by {
      assert |HOST| != |"github.company"|;
    }
    assert HOST != "https:" && HOST != "";
  }

  /** Only the last two segments are taken: a URL that names just an owner is accepted,
      with HOST as the owner and the owner as the repository name. */
  lemma OwnerOnlyUrl(owner: string)
    requires '/' !in owner && |owner| > 0
    ensures ExtractRepoDetails("https://" + HOST + "/" + owner) == Ok((HOST, owner))
  {
    var url := "https://" + HOST + "/" + owner;
    assert url[|url| - 1] == owner[|owner| - 1];
    StripOne(url, false);
    assert url + "" == url;
    JoinCons(HOST, [owner], '/');
    JoinCons("", [HOST, owner], '/');
    JoinCons("https:", ["", HOST, owner], '/');
    assert [HOST] + [owner] == [HOST, owner];
    assert [""] + [HOST, owner] == ["", HOST, owner];
    assert ["https:"] + ["", HOST, owner] == ["https:", "", HOST, owner];
    assert "https:" + "/" + "" + "/" == "https://";
    var parts := ["https:", "", HOST, owner];
    assert Join(parts, '/') == url;
    assert SeparatorFree(parts, '/') by {
      assert '/' !in "https:" && '/' !in HOST;
    }
    SegmentsOf(url, parts);
  }
}
