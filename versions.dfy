/** The catalogue of downloadable server versions
    (`AvailableMinecraftServerVersions`): the version ids scraped from the
    version site with their download pages, kept in a cache file for a
    week, and the resolution of `"latest"`. */
module Versions {
  import opened Exceptions
  import opened Text
  import opened OrderedDicts

  /** The version site; every download page is this followed by a link. */
  const Site: string := "https://mcversions.net"

  /** A release as the version site lists it: its `id` attribute and the
      `href` of its Download link. */
  datatype Release = Release(id: string, href: string)

  /** The filter of the scraping loop: beta, alpha, 1.0, classic,
      pre-classic and infdev links are dropped, and so is exactly
      `/download/1.1`. */
  predicate Accept(href: string) {
    && !StartsWith(href, "/download/b")
    && !StartsWith(href, "/download/a")
    && href != "/download/1.1"
    && !StartsWith(href, "/download/1.0")
    && !StartsWith(href, "/download/c")
    && !StartsWith(href, "/download/rd")
    && !StartsWith(href, "/download/inf")
  }

  /** The `1.1` exclusion is exact: a later `1.1x` release stays. */
  lemma AcceptExamples()
    ensures Accept("/download/1.12.2") && !Accept("/download/1.1")
    ensures !Accept("/download/b1.7.3")
  {
    assert "/download/1.12.2"[..|"/download/1.0"|] == "/download/1.1";
    assert "/download/1.12.2"[..|"/download/b"|] == "/download/1";
    assert "/download/b1.7.3"[..|"/download/b"|] == "/download/b";
  }

  /** The entries the scraping loop assigns, in order: each accepted
      release's id with its download page. */
  function Accepted(releases: seq<Release>): (r: Dict<string>)
    ensures |r| <= |releases|
    ensures forall i :: 0 <= i < |r| ==> StartsWith(r[i].1, Site) && Accept(r[i].1[|Site|..])
    decreases |releases|
  {
    if releases == [] then []
    else
      var rest := Accepted(releases[..|releases| - 1]);
      var last := releases[|releases| - 1];
      if Accept(last.href) then rest + [(last.id, Site + last.href)] else rest
  }

  /** Every assigned page is the page of a release with that very id. */
  lemma {:induction false} AcceptedPages(releases: seq<Release>, i: nat)
    requires i < |Accepted(releases)|
    ensures exists j :: 0 <= j < |releases| && releases[j].id == Accepted(releases)[i].0 &&
              Accept(releases[j].href) && Accepted(releases)[i].1 == Site + releases[j].href
    decreases |releases|
  {
    var n := |releases| - 1;
    var p := releases[..n];
    var last := releases[n];
    var rest := Accepted(p);
    if i < |rest| {
      AcceptedPages(p, i);
      var j :| 0 <= j < |p| && p[j].id == rest[i].0 && Accept(p[j].href) && rest[i].1 == Site + p[j].href;
      assert releases[j] == p[j];
      assert Accepted(releases)[i] == rest[i];
    } else {
      assert Accepted(releases)[i] == (last.id, Site + last.href);
    }
  }

  /** An id is assigned exactly when some release with that id has an
      accepted link. */
  lemma {:induction false} AcceptedIds(releases: seq<Release>, id: string)
    ensures HasKey(Accepted(releases), id) <==>
              exists j :: 0 <= j < |releases| && releases[j].id == id && Accept(releases[j].href)
    decreases |releases|
  {
    if releases != [] {
      var p := releases[..|releases| - 1];
      var last := releases[|releases| - 1];
      AcceptedIds(p, id);
      if Accept(last.href) {
        HasKeyConcat(Accepted(p), [(last.id, Site + last.href)], id);
      }
      if exists j :: 0 <= j < |releases| && releases[j].id == id && Accept(releases[j].href) {
        var j :| 0 <= j < |releases| && releases[j].id == id && Accept(releases[j].href);
        if j < |p| {
          assert p[j] == releases[j];
        }
      }
      if exists j :: 0 <= j < |p| && p[j].id == id && Accept(p[j].href) {
        var j :| 0 <= j < |p| && p[j].id == id && Accept(p[j].href);
        assert releases[j] == p[j];
      }
    }
  }

  /** The cache file: the version table and when it was written, in
      microseconds since the epoch. */
  datatype VersionCache = VersionCache(versions: Dict<string>, timestamp: int)

  const MicrosPerDay: int := 86_400_000_000

  /** `(now - timestamp).days <= 7`: `timedelta.days` rounds the difference
      down to whole days. */
  predicate CacheFresh(timestamp: int, now: int) {
    (now - timestamp) / MicrosPerDay <= 7
  }

  /** The cache is used exactly while it is less than eight days old, a
      cache from the future included. */
  lemma CacheFreshIff(timestamp: int, now: int)
    ensures CacheFresh(timestamp, now) <==> now - timestamp < 8 * MicrosPerDay
  {
    var d := now - timestamp;
    var q := d / MicrosPerDay;
    assert q * MicrosPerDay <= d < q * MicrosPerDay + MicrosPerDay;
    if q <= 7 {
      assert q * MicrosPerDay <= 7 * MicrosPerDay;
    } else {
      assert q * MicrosPerDay >= 8 * MicrosPerDay;
    }
  }

  /** `"latest"` stands for the first version listed. */
  function Resolve(versions: Dict<string>, version: string): (r: Result<string>)
    ensures version != "latest" ==> r == Ok(version)
    ensures version == "latest" ==> (r.Ok? <==> versions != [])
    ensures version == "latest" && versions != [] ==> r == Ok(Keys(versions)[0])
  {
    if version != "latest" then Ok(version)
    else if versions == [] then Err(IndexError)
    else Ok(versions[0].0)
  }

  class AvailableVersions {
    /** `available_versions`: version id to download page, in site order. */
    var versions: Dict<string>
    /** The cache file, when there is one. */
    var cache: Option<VersionCache>

    constructor (cache: Option<VersionCache>)
      ensures versions == [] && this.cache == cache
    {
      versions := [];
      this.cache := cache;
    }

    /** `_get_available_minecraft_versions` at time `now`, the site listing
        `releases`: a cache less than eight days old is taken as it is;
        otherwise every accepted release is assigned over the current table
        and the table is cached with the time. */
    method Refresh(now: int, releases: seq<Release>)
      modifies this
      ensures old(cache).Some? && CacheFresh(old(cache).value.timestamp, now) ==>
                versions == old(cache).value.versions && cache == old(cache)
      ensures !(old(cache).Some? && CacheFresh(old(cache).value.timestamp, now)) ==>
                && versions == PutAll(old(versions), Accepted(releases))
                && cache == Some(VersionCache(versions, now))
    {
      if cache.Some? && CacheFresh(cache.value.timestamp, now) {
        versions := cache.value.versions;
        return;
      }
      var i := 0;
      while i < |releases|
        invariant 0 <= i <= |releases|
        invariant versions == PutAll(old(versions), Accepted(releases[..i]))
      {
        var release := releases[i];
        assert releases[..i + 1][..i] == releases[..i];
        if Accept(release.href) {
          PutAllSnoc(old(versions), Accepted(releases[..i]), (release.id, Site + release.href));
          versions := Put(versions, release.id, Site + release.href);
        }
        i := i + 1;
      }
      assert releases[..i] == releases;
      cache := Some(VersionCache(versions, now));
    }

    /** `get_download_link`, up to the page it scrapes: `"latest"` is the
        first version, and a version without a page is unsupported. */
    function DownloadPage(version: string): (r: Result<string>)
      reads this
      ensures version == "latest" && versions == [] ==> r == Err(IndexError)
      ensures Resolve(versions, version).Ok? ==>
                (r.Ok? <==> HasKey(versions, Resolve(versions, version).value))
      ensures Resolve(versions, version).Ok? && r.Err? ==> r.error == UnsupportedVersion
      ensures r.Ok? ==> (Resolve(versions, version).value, r.value) in versions
    {
      var resolved :- Resolve(versions, version);
      var page := Find(versions, resolved);
      if page.None? then Err(UnsupportedVersion)
      else Ok(page.value)
    }

    /** `get_latest_version`: the first version id. */
    function LatestVersion(): (r: Result<string>)
      reads this
      ensures r.Ok? <==> versions != []
      ensures r.Err? ==> r.error == IndexError
      ensures r.Ok? ==> r.value == versions[0].0
    {
      if versions == [] then Err(IndexError) else Ok(versions[0].0)
    }

    /** `get_version_list`: `"latest"`, then every version id in order. */
    function VersionList(): (r: seq<string>)
      reads this
      ensures |r| == |versions| + 1 && r[0] == "latest"
      ensures forall i :: 0 <= i < |versions| ==> r[i + 1] == versions[i].0
    {
      ["latest"] + Keys(versions)
    }

    /** The three views agree: the latest version is the first one listed
        after `"latest"`, and `"latest"` downloads from its page. */
    lemma LatestAgrees()
      requires versions != []
      ensures LatestVersion().Ok? && VersionList()[1] == LatestVersion().value
      ensures DownloadPage("latest") == DownloadPage(LatestVersion().value)
      ensures DownloadPage("latest") == Ok(versions[0].1)
    {
    }
  }
}
