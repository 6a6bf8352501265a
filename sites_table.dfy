/** `renderSitesTable`: the rows it hands the table, or the empty-list notice. */
module SitesTable {
  import opened Wrappers

  /** The `Site` record of the API; timestamps are the strings the API sends. */
  datatype Site = Site(id: string, domain: string, status: string, createdAt: string, updatedAt: string)

  const Header: seq<string> := ["ID", "Domain", "Status", "Created At", "Updated At"]
  const NoSitesNotice: string := "No sites found"

  /** What is shown: the one-line notice, or a header and body rows. */
  datatype SitesView = Notice(message: string) | Table(header: seq<string>, rows: seq<seq<string>>)

  /** One body row: the five fields, in header order. */
  function SiteRow(site: Site): (row: seq<string>)
    ensures |row| == |Header|
  {
    [site.id, site.domain, site.status, site.createdAt, site.updatedAt]
  }

  /** Reads a five-cell row back as a site. */
  function SiteOfRow(row: seq<string>): (site: Option<Site>)
    ensures site.Some? <==> |row| == |Header|
  {
    if |row| == 5 then Some(Site(row[0], row[1], row[2], row[3], row[4])) else None
  }

  /** A row holds every field unmodified: the site can be read back from it. */
  lemma SiteRowRoundTrip(site: Site)
    ensures SiteOfRow(SiteRow(site)) == Some(site)
  {
  }

  /** `sites.map(...)`: one row per site. */
  function Rows(sites: seq<Site>): (rows: seq<seq<string>>)
    ensures |rows| == |sites|
    ensures forall i :: 0 <= i < |sites| ==> SiteOfRow(rows[i]) == Some(sites[i])
    decreases |sites|
  {
    if sites == [] then [] else [SiteRow(sites[0])] + Rows(sites[1..])
  }

  /** Rows keep the order of the list: the rows of a concatenation are the concatenated rows. */
  lemma {:induction false} RowsConcat(a: seq<Site>, b: seq<Site>)
    ensures Rows(a + b) == Rows(a) + Rows(b)
    decreases |a|
  {
    if a != [] {
      assert (a + b)[1..] == a[1..] + b;
      RowsConcat(a[1..], b);
    } else {
      assert a + b == b;
    }
  }

  /** The notice for an empty list; otherwise the fixed header and one row per site. */
  function RenderSites(sites: seq<Site>): (view: SitesView)
    ensures view.Notice? <==> |sites| == 0
    ensures view.Notice? ==> view.message == NoSitesNotice
    ensures view.Table? ==> view.header == Header && |view.rows| == |sites|
    ensures view.Table? ==> forall i :: 0 <= i < |sites| ==> SiteOfRow(view.rows[i]) == Some(sites[i])
  {
    if |sites| == 0 then Notice(NoSitesNotice) else Table(Header, Rows(sites))
  }

  /** Three sites give five header columns and three rows, first to last, every cell as sent. */
  lemma RenderThreeSites(s1: Site, s2: Site, s3: Site)
    ensures RenderSites([s1, s2, s3]) == Table(Header, [SiteRow(s1), SiteRow(s2), SiteRow(s3)])
  {
    var rows := Rows([s1, s2, s3]);
    forall i | 0 <= i < 3 ensures rows[i] == SiteRow([s1, s2, s3][i]) {
      SiteRowRoundTrip([s1, s2, s3][i]);
    }
  }
}
