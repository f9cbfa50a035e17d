/**
 * Admin page addressing (src/admin/model/admin_model/navigation.rs): each
 * page has a two-character number, and any other input opens the landing
 * page.
 */
module AdminNavigation {
  datatype AdminPage = Landing | TablesAndConstraints | ZeroX

  /** `AdminPage::get_page_number`. */
  function GetPageNumber(p: AdminPage): (n: string)
    ensures |n| == 2 && n[0] == '0'
  {
    match p
    case Landing => "00"
    case TablesAndConstraints => "01"
    case ZeroX => "0x"
  }

  /** `AdminPage::parse`: total, defaulting to the landing page. */
  function Parse(input: string): (p: AdminPage)
    ensures p != Landing ==> GetPageNumber(p) == input
    ensures (forall q :: GetPageNumber(q) != input) ==> p == Landing
  {
    match input
    case "00" => Landing
    case "01" => TablesAndConstraints
    case "0x" => ZeroX
    case _ => Landing
  }

  /** Every page's number opens that page. */
  lemma ParseGetPageNumber(p: AdminPage)
    ensures Parse(GetPageNumber(p)) == p
  {
  }

  /** Different pages have different numbers. */
  lemma GetPageNumberInjective(p: AdminPage, q: AdminPage)
    requires GetPageNumber(p) == GetPageNumber(q)
    ensures p == q
  {
    ParseGetPageNumber(p);
    ParseGetPageNumber(q);
  }

  /** Parsing, then numbering, then parsing again is parsing once. */
  lemma ParseIsStable(input: string)
    ensures Parse(GetPageNumber(Parse(input))) == Parse(input)
  {
    ParseGetPageNumber(Parse(input));
  }
}
