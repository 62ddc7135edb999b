/** The hosted table store, reduced to what the controllers observe of it:
    a `select("*")` either fails or yields the rows (possibly `null`). */
module Store {
  import opened Wrappers

  /** Outcome of `supabase.from("tickets").select("*")`. */
  datatype Fetched<T> = Failed | Rows(data: Option<seq<T>>)

  /** The list a controller holds after applying a fetch: `data || []` on success,
      the previous list on failure. */
  function Refreshed<T>(current: seq<T>, res: Fetched<T>): (r: seq<T>)
    ensures res.Failed? ==> r == current
    ensures res.Rows? && res.data.Some? ==> r == res.data.value
    ensures res == Rows(None) ==> r == []
  {
    match res
    case Failed => current
    case Rows(data) => data.GetOr([])
  }
}
