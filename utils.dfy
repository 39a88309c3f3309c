/** The product-list helpers: deriving a thumbnail from a Drive link,
    displaying an NCM code, the filter tabs, the free-text search and the
    spreadsheet header table. */
module Utils {
  import opened Wrappers
  import opened Text
  import opened Lists
  import opened Records
  import opened Patterns

  // ----------------------------------------------------- Drive thumbnails

  const FileMarker: Marker := Lit("/file/d/")
  const QueryIdMarker: Marker := [{'?', '&'}] + Lit("id=")
  const IdMarker: Marker := Lit("id=")
  const DirectImageHost := "googleusercontent.com"

  /** `driveUrlToThumbnail`: a `/file/d/ID` link, then a `?id=ID` or `&id=ID`
      parameter, are turned into the thumbnail address of ID; a direct
      image link is kept; then any `id=ID`; anything else gives null. An
      absent link is the empty string here. */
  function DriveUrlToThumbnail(url: string): (r: Option<string>)
    ensures url == "" ==> r == None
    ensures r.Some? ==> (r.value == url ||
              exists id :: r.value == ThumbnailUrl(id) && id != [] && AllIdChars(id) && Contains(url, id))
  {
    if url == "" then None
    else
      var file := Capture(url, FileMarker);
      if file.Some? then CaptureOccurs(url, FileMarker); Some(ThumbnailUrl(file.value))
      else
        var query := Capture(url, QueryIdMarker);
        if query.Some? then CaptureOccurs(url, QueryIdMarker); Some(ThumbnailUrl(query.value))
        else if Contains(url, DirectImageHost) then Some(url)
        else
          var id := Capture(url, IdMarker);
          if id.Some? then CaptureOccurs(url, IdMarker); Some(ThumbnailUrl(id.value))
          else None
  }

  /** Every `?id=` or `&id=` match is also an `id=` match, one place on. */
  lemma QueryIdImpliesId(url: string, i: nat)
    requires MatchesAt(url, QueryIdMarker, i)
    ensures MatchesAt(url, IdMarker, i + 1)
  {
    forall k | 0 <= k < |IdMarker| ensures url[i + 1 + k] in IdMarker[k] {
      assert IdMarker[k] == QueryIdMarker[k + 1];
    }
  }

  /** The function gives null exactly for an empty link and for a link
      that matches neither id pattern nor names the direct-image host. */
  lemma DriveUrlToThumbnailNull(url: string)
    ensures DriveUrlToThumbnail(url).None? <==>
              url == "" ||
              (Capture(url, FileMarker).None? && Capture(url, IdMarker).None? &&
               !Contains(url, DirectImageHost))
  {
    if Capture(url, QueryIdMarker).Some? {
      var i := FirstMatchFrom(url, QueryIdMarker, 0);
      QueryIdImpliesId(url, i);
    }
  }

  /** A `/file/d/` id wins over any `id=` parameter in the same link. */
  lemma FileIdWins(url: string, i: nat)
    requires MatchesAt(url, FileMarker, i)
    requires forall j :: 0 <= j < i ==> !MatchesAt(url, FileMarker, j)
    ensures DriveUrlToThumbnail(url) == Some(ThumbnailUrl(IdRun(url[i + |FileMarker|..])))
  {
    CaptureIsLeftmostRun(url, FileMarker, i);
  }

  /** Without a `/file/d/` id, the id of the leftmost `?id=` or `&id=`
      parameter is taken. */
  lemma QueryIdWins(url: string, i: nat)
    requires Capture(url, FileMarker).None?
    requires MatchesAt(url, QueryIdMarker, i)
    requires forall j :: 0 <= j < i ==> !MatchesAt(url, QueryIdMarker, j)
    ensures DriveUrlToThumbnail(url) == Some(ThumbnailUrl(IdRun(url[i + |QueryIdMarker|..])))
  {
    CaptureIsLeftmostRun(url, QueryIdMarker, i);
  }

  /** The last resort, taken only when nothing earlier applied (an `id=`
      that follows neither `?` nor `&`): the id after the leftmost `id=`. */
  lemma IdFallback(url: string, i: nat)
    requires Capture(url, FileMarker).None? && Capture(url, QueryIdMarker).None?
    requires !Contains(url, DirectImageHost)
    requires MatchesAt(url, IdMarker, i)
    requires forall j :: 0 <= j < i ==> !MatchesAt(url, IdMarker, j)
    ensures DriveUrlToThumbnail(url) == Some(ThumbnailUrl(IdRun(url[i + |IdMarker|..])))
  {
    CaptureIsLeftmostRun(url, IdMarker, i);
  }

  /** A direct image link comes back unchanged exactly when neither the
      `/file/d/` nor the `[?&]id=` pattern matched first. */
  lemma DirectImageKept(url: string)
    requires Contains(url, DirectImageHost)
    ensures Capture(url, FileMarker).None? && Capture(url, QueryIdMarker).None? ==>
              DriveUrlToThumbnail(url) == Some(url)
    ensures Capture(url, FileMarker).Some? ==>
              DriveUrlToThumbnail(url) == Some(ThumbnailUrl(Capture(url, FileMarker).value))
    ensures Capture(url, FileMarker).None? && Capture(url, QueryIdMarker).Some? ==>
              DriveUrlToThumbnail(url) == Some(ThumbnailUrl(Capture(url, QueryIdMarker).value))
  {
  }

  /** Where the fixed start of a thumbnail address has a slash. */
  lemma PrefixSlashes(i: nat)
    requires i < |ThumbnailPrefix| && ThumbnailPrefix[i] == '/'
    ensures i == 6 || i == 7 || i == 24
  {
  }

  /** Where the fixed start of a thumbnail address has a `?` or `&`. */
  lemma PrefixQueryMarks(i: nat)
    requires i < |ThumbnailPrefix| && ThumbnailPrefix[i] in {'?', '&'}
    ensures i == 34
  {
  }

  /** The character at each position of a thumbnail address. */
  lemma ThumbnailCharAt(id: string, i: nat)
    requires i < |ThumbnailUrl(id)|
    ensures var p := |ThumbnailPrefix|;
            ThumbnailUrl(id)[i] ==
              if i < p then ThumbnailPrefix[i]
              else if i < p + |id| then id[i - p]
              else ThumbnailSuffix[i - p - |id|]
  {
  }

  /** No slash in a thumbnail address can start `/file/d/`. */
  lemma NoFileMarkerAt(id: string, i: nat)
    requires AllIdChars(id)
    ensures !MatchesAt(ThumbnailUrl(id), FileMarker, i)
  {
    var u := ThumbnailUrl(id);
    assert FileMarker[0] == {'/'} && FileMarker[1] == {'f'};
    if i + 1 < |u| {
      ThumbnailCharAt(id, i);
      ThumbnailCharAt(id, i + 1);
      if i < |ThumbnailPrefix| && ThumbnailPrefix[i] == '/' {
        PrefixSlashes(i);
      }
    }
  }

  lemma NoFileMarkerInThumbnail(id: string)
    requires AllIdChars(id)
    ensures Capture(ThumbnailUrl(id), FileMarker).None?
  {
    forall i: nat ensures !MatchesAt(ThumbnailUrl(id), FileMarker, i) {
      NoFileMarkerAt(id, i);
    }
  }

  /** In a thumbnail address, `?id=` matches just before the id, and
      nowhere earlier. */
  lemma QueryIdInThumbnail(id: string)
    requires id != [] && AllIdChars(id)
    ensures MatchesAt(ThumbnailUrl(id), QueryIdMarker, |ThumbnailPrefix| - 4)
    ensures forall j :: 0 <= j < |ThumbnailPrefix| - 4 ==> !MatchesAt(ThumbnailUrl(id), QueryIdMarker, j)
  {
    var u := ThumbnailUrl(id);
    var p := |ThumbnailPrefix|;
    forall k | 0 <= k < 4 ensures u[p - 4 + k] in QueryIdMarker[k] {
      ThumbnailCharAt(id, p - 4 + k);
    }
    ThumbnailCharAt(id, p);
    forall j | 0 <= j < p - 4 ensures !MatchesAt(u, QueryIdMarker, j) {
      ThumbnailCharAt(id, j);
      if MatchesAt(u, QueryIdMarker, j) {
        assert u[j] in QueryIdMarker[0];
        PrefixQueryMarks(j);
      }
    }
  }

  /** The `[?&]id=` pattern captures exactly the id of a thumbnail address. */
  lemma QueryCaptureOfThumbnail(id: string)
    requires id != [] && AllIdChars(id)
    ensures Capture(ThumbnailUrl(id), QueryIdMarker) == Some(id)
  {
    var u := ThumbnailUrl(id);
    var p := |ThumbnailPrefix|;
    QueryIdInThumbnail(id);
    CaptureIsLeftmostRun(u, QueryIdMarker, p - 4);
    assert |QueryIdMarker| == 4;
    ThumbnailRunIsId(id);
  }

  /** After the prefix, a thumbnail address holds the id and the suffix. */
  lemma ThumbnailTail(id: string)
    ensures ThumbnailUrl(id)[|ThumbnailPrefix|..] == id + ThumbnailSuffix
  {
    assert ThumbnailUrl(id) == ThumbnailPrefix + (id + ThumbnailSuffix);
  }

  /** The id run after the prefix is the id itself. */
  lemma ThumbnailRunIsId(id: string)
    requires AllIdChars(id)
    ensures IdRun(ThumbnailUrl(id)[|ThumbnailPrefix|..]) == id
  {
    ThumbnailTail(id);
    assert !IsIdChar(ThumbnailSuffix[0]);
    IdRunOfDelimited(id, ThumbnailSuffix);
  }

  /** The thumbnail address is a fixed point: feeding it back returns it. */
  lemma ThumbnailUrlIsFixpoint(id: string)
    requires id != [] && AllIdChars(id)
    ensures DriveUrlToThumbnail(ThumbnailUrl(id)) == Some(ThumbnailUrl(id))
  {
    NoFileMarkerInThumbnail(id);
    QueryCaptureOfThumbnail(id);
  }

  // ------------------------------------------------------------ NCM codes

  const EmDash := "\U{2014}"

  /** `DDDD.DD.DD` of eight digits. */
  function Dotted(d: string): (r: string)
    requires |d| == 8
    ensures |r| == 10 && r[4] == '.' && r[7] == '.'
    ensures r[..4] == d[..4] && r[5..7] == d[4..6] && r[8..] == d[6..]
  {
    d[..4] + "." + d[4..6] + "." + d[6..8]
  }

  /** `formatNCM`: an empty code shows as a dash; a code with exactly eight
      digits shows as `DDDD.DD.DD` of those digits; any other code is shown
      as typed, not stripped. */
  function FormatNcm(ncm: string): (r: string)
    ensures ncm == "" ==> r == EmDash
    ensures ncm != "" && |Digits(ncm)| == 8 ==> r == Dotted(Digits(ncm))
    ensures ncm != "" && |Digits(ncm)| != 8 ==> r == ncm
  {
    if ncm == "" then EmDash
    else
      var d := Digits(ncm);
      if |d| == 8 then Dotted(d) else ncm
  }

  lemma DigitsOfDotted(d: string)
    requires |d| == 8 && AllDigits(d)
    ensures Digits(Dotted(d)) == d
  {
    var a, b, c := d[..4], d[4..6], d[6..8];
    assert Dotted(d) == a + ['.'] + (b + ['.'] + c);
    DigitsSkip(b, '.', c);
    DigitsSkip(a, '.', b + ['.'] + c);
    assert a + (b + c) == d;
  }

  /** Formatting never changes which digits a code has. */
  lemma FormatNcmKeepsDigits(ncm: string)
    ensures Digits(FormatNcm(ncm)) == Digits(ncm)
  {
    if ncm == "" {
      assert Digits(EmDash) == [] by { assert EmDash[1..] == []; }
    } else if |Digits(ncm)| == 8 {
      DigitsOfDotted(Digits(ncm));
    }
  }

  /** Formatting an already formatted code changes nothing. */
  lemma FormatNcmIdempotent(ncm: string)
    ensures FormatNcm(FormatNcm(ncm)) == FormatNcm(ncm)
  {
    FormatNcmKeepsDigits(ncm);
    if ncm == "" {
      assert Digits(EmDash) == [] by { assert EmDash[1..] == []; }
    }
  }

  // -------------------------------------------------------------- filters

  /** `FILTERS`: the filter tabs, by id and label. */
  const Filters: seq<(string, string)> := [
    ("all", "Todos"),
    ("no_video_ml", "Sem Vídeo ML"),
    ("no_video_shopee", "Sem Vídeo Shopee"),
    ("no_ean", "Sem EAN"),
    ("no_ncm", "Sem NCM"),
    ("no_fotos", "Sem Fotos"),
    ("no_thumbnail", "Sem Thumbnail")
  ]

  /** The field a `no_*` filter looks at; `None` for 'all' and for any id
      the `switch` does not name. */
  function FilterField(filterId: string): (f: Option<string>)
    ensures f.Some? ==> f.value in ProductFields
  {
    match filterId
    case "no_video_ml" => Some("video_ml")
    case "no_video_shopee" => Some("video_shopee")
    case "no_ean" => Some("ean")
    case "no_ncm" => Some("ncm")
    case "no_fotos" => Some("fotos_drive")
    case "no_thumbnail" => Some("thumbnail")
    case _ => None
  }

  /** `!p.field?.trim()`: the field is absent or holds only white space. */
  predicate IsBlankField(p: Record, field: string) {
    field !in p || Trim(p[field]) == ""
  }

  /** `applyFilter`. */
  function ApplyFilter(products: seq<Record>, filterId: string): (r: seq<Record>)
    ensures FilterField(filterId).None? ==> r == products
    ensures IsSubsequence(r, products)
    ensures FilterField(filterId).Some? ==>
              var f := FilterField(filterId).value;
              forall p :: multiset(r)[p] ==
                (if f !in p || AllSpace(p[f]) then multiset(products)[p] else 0)
  {
    match FilterField(filterId)
    case None => SubsequenceReflexive(products); products
    case Some(f) => Filter(products, p => IsBlankField(p, f))
  }

  /** Every tab but 'all' selects a field; 'all' selects none. */
  lemma FilterTabsSelectFields()
    ensures forall i :: 0 <= i < |Filters| ==>
              (FilterField(Filters[i].0).None? <==> Filters[i].0 == "all")
  {
  }

  /** Applying a filter twice is applying it once. */
  lemma ApplyFilterIdempotent(products: seq<Record>, filterId: string)
    ensures ApplyFilter(ApplyFilter(products, filterId), filterId) == ApplyFilter(products, filterId)
  {
    match FilterField(filterId)
    case None =>
    case Some(f) => FilterIdempotent(products, p => IsBlankField(p, f));
  }

  // --------------------------------------------------------------- search

  /** The search test for one product, against the lower-cased query:
      name and SKU are lower-cased first, EAN and NCM are compared as
      stored. */
  predicate MatchesQuery(p: Record, q: string) {
    ("nome" in p && Contains(Lower(p["nome"]), q)) ||
    ("sku" in p && Contains(Lower(p["sku"]), q)) ||
    ("ean" in p && Contains(p["ean"], q)) ||
    ("ncm" in p && Contains(p["ncm"], q))
  }

  /** `applySearch`: a blank query keeps the list; otherwise the products
      matching the lower-cased (untrimmed) query, in order. */
  function ApplySearch(products: seq<Record>, query: string): (r: seq<Record>)
    ensures AllSpace(query) ==> r == products
    ensures IsSubsequence(r, products)
    ensures !AllSpace(query) ==>
              forall p :: multiset(r)[p] ==
                (if MatchesQuery(p, Lower(query)) then multiset(products)[p] else 0)
  {
    if Trim(query) == "" then SubsequenceReflexive(products); products
    else
      var q := Lower(query);
      Filter(products, p => MatchesQuery(p, q))
  }

  /** The search does not depend on the case of the query. */
  lemma SearchIgnoresQueryCase(products: seq<Record>, query: string)
    ensures ApplySearch(products, Lower(query)) == ApplySearch(products, query)
  {
    LowerKeepsBlank(query);
    LowerIdempotent(query);
  }

  // ------------------------------------------------------ header aliases

  /** `COLUMN_MAP`: spreadsheet header spellings and the product field each
      one fills. */
  const ColumnMap: map<string, string> := map[
    "nome" := "nome",
    "name" := "nome",
    "produto" := "nome",
    "sku" := "sku",
    "ncm" := "ncm",
    "cest" := "cest",
    "ean" := "ean",
    "gtin" := "ean",
    "codigo barras" := "ean",
    "código de barras" := "ean",
    "custo" := "custo",
    "custo (r$)" := "custo",
    "cost" := "custo",
    "fotos" := "fotos_drive",
    "fotos drive" := "fotos_drive",
    "fotos_drive" := "fotos_drive",
    "link fotos" := "fotos_drive",
    "thumbnail" := "thumbnail",
    "imagem" := "thumbnail",
    "video ml" := "video_ml",
    "vídeo ml" := "video_ml",
    "video_ml" := "video_ml",
    "video shopee" := "video_shopee",
    "vídeo shopee" := "video_shopee",
    "video_shopee" := "video_shopee"
  ]

  /** Every alias fills one of the ten product fields. */
  lemma ColumnMapTargetsFields()
    ensures forall k :: k in ColumnMap ==> ColumnMap[k] in ProductFields
  {
  }

  /** Every product field is its own alias, so a sheet whose headers are
      the field names imports every column. */
  lemma ColumnMapCoversFields()
    ensures forall i :: 0 <= i < |ProductFields| ==>
              ProductFields[i] in ColumnMap && ColumnMap[ProductFields[i]] == ProductFields[i]
  {
  }

  /** The characters that occur in the aliases; none of them changes
      under lower-casing. */
  predicate AliasChar(c: char) {
    'a' <= c <= 'z' || c == ' ' || c == '_' || c == '(' || c == ')' || c == '$' || c == 'í' || c == 'ó'
  }

  predicate PlainAlias(k: string) {
    k != [] && k[0] != ' ' && k[|k| - 1] != ' ' && forall i :: 0 <= i < |k| ==> AliasChar(k[i])
  }

  lemma AliasCharLower(c: char)
    requires AliasChar(c)
    ensures LowerChar(c) == c
  {
  }

  lemma PlainAliasNormalized(k: string)
    requires PlainAlias(k)
    ensures Lower(k) == k && Trim(k) == k
  {
    forall i | 0 <= i < |k| ensures Lower(k)[i] == k[i] {
      AliasCharLower(k[i]);
    }
    assert !IsSpace(k[0]) && !IsSpace(k[|k| - 1]) by {
      assert AliasChar(k[0]) && AliasChar(k[|k| - 1]);
    }
  }

  lemma AliasesPlain1()
    ensures PlainAlias("nome") && PlainAlias("name") && PlainAlias("produto") && PlainAlias("sku") &&
            PlainAlias("ncm") && PlainAlias("cest") && PlainAlias("ean") && PlainAlias("gtin")
  {
  }

  lemma AliasesPlain2()
    ensures PlainAlias("codigo barras") && PlainAlias("código de barras") && PlainAlias("custo") &&
            PlainAlias("custo (r$)") && PlainAlias("cost") && PlainAlias("fotos") &&
            PlainAlias("fotos drive") && PlainAlias("fotos_drive")
  {
  }

  lemma AliasesPlain3()
    ensures PlainAlias("link fotos") && PlainAlias("thumbnail") && PlainAlias("imagem") &&
            PlainAlias("video ml") && PlainAlias("vídeo ml") && PlainAlias("video_ml") &&
            PlainAlias("video shopee") && PlainAlias("vídeo shopee") && PlainAlias("video_shopee")
  {
  }

  /** Every alias is already in the form a normalised header takes:
      lower-case and trimmed. */
  lemma ColumnMapKeysNormalized()
    ensures forall k :: k in ColumnMap ==> Lower(k) == k && Trim(k) == k
  {
    AliasesPlain1();
    AliasesPlain2();
    AliasesPlain3();
    forall k | k in ColumnMap ensures Lower(k) == k && Trim(k) == k {
      PlainAliasNormalized(k);
    }
  }
}
