/** The physical location of an item's cached copy
    (wt_data_manager/server/lib/path_mapper.py). */
module PathMapper {
  import opened Base

  /** `getPSPath`: the storage root, then two levels of one-character shards taken
      from the first two characters of the id, then the whole id. The root is the
      value of the private-storage-path setting at the time of the call, so it is
      a parameter. Indexing a one-character id fails with IndexError. */
  function GetPSPath(root: string, itemId: ItemId): (r: Result<Path>)
    ensures r.Err? <==> |itemId| < 2
    ensures r.Err? ==> r.error == IndexError
    ensures r.Ok? ==> |r.value| == |root| + 5 + |itemId|
    ensures r.Ok? ==> r.value[..|root| + 1] == root + "/"
    ensures r.Ok? ==> r.value[|root| + 1] == itemId[0] && r.value[|root| + 2] == '/'
    ensures r.Ok? ==> r.value[|root| + 3] == itemId[1] && r.value[|root| + 4] == '/'
    ensures r.Ok? ==> r.value[|root| + 5..] == itemId
  {
    if |itemId| < 2 then Err(IndexError)
    else Ok(root + "/" + [itemId[0]] + "/" + [itemId[1]] + "/" + itemId)
  }

  /** For a fixed root, distinct ids never share a cache path, because the path ends
      with the whole id. */
  lemma PSPathInjective(root: string, a: ItemId, b: ItemId)
    requires GetPSPath(root, a).Ok? && GetPSPath(root, b).Ok?
    requires GetPSPath(root, a).value == GetPSPath(root, b).value
    ensures a == b
  {
    var p := GetPSPath(root, a).value;
    assert a == p[|root| + 5..];
    assert b == GetPSPath(root, b).value[|root| + 5..];
  }
}
