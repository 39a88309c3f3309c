/** A product record as the application stores it: a JavaScript object
    whose fields hold strings. A field that is absent (`undefined`) is a key
    that is not in the map. */
module Records {

  type Record = map<string, string>

  /** The ten product fields: `CORE_COLS` of the data layer, which the
      import dialog also lists as its expected columns. */
  const ProductFields: seq<string> :=
    ["nome", "sku", "ncm", "cest", "ean", "custo", "fotos_drive", "thumbnail", "video_ml", "video_shopee"]

  /** `r.k || ''`: the field's text, with an absent field read as empty. */
  function Str(r: Record, k: string): (v: string)
    ensures k in r ==> v == r[k]
    ensures k !in r ==> v == ""
  {
    if k in r then r[k] else ""
  }
}
