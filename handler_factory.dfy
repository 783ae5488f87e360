/** Scheme-to-handler dispatch (server/lib/handler_factory.py). The scheme of a
    URL is the text before the first "://"; a URL without one is a local path.
    This is a split at a separator, not a full URI scheme parser. */
module HandlerFactory {
  import opened Base

  /** The handler classes the table can name. */
  datatype HandlerKind = Local | Http

  /** A handler as constructed by `newTransferHandler`. */
  datatype Handler = Handler(kind: HandlerKind, url: string, transferId: TransferId, itemId: ItemId, psPath: Path)

  /** `loadHandlers`: the scheme table. */
  const Handlers: map<string, HandlerKind> := map["local" := Local, "http" := Http, "file" := Local]

  /** The table names exactly three schemes, and `file` is served like `local`. */
  lemma HandlerTable()
    ensures Handlers.Keys == {"local", "http", "file"}
    ensures Handlers["file"] == Handlers["local"] == Local && Handlers["http"] == Http
  {
  }

  /** `pat` occurs in `s` at index `i`. */
  predicate OccursAt(s: string, pat: string, i: int) {
    0 <= i && i + |pat| <= |s| && s[i..i + |pat|] == pat
  }

  /** `str.find` from index `from`: the first index at or after `from` where
      `pat` occurs, or -1. */
  function FindFrom(s: string, pat: string, from: nat): (r: int)
    requires from <= |s|
    ensures r == -1 || (from <= r && OccursAt(s, pat, r))
    ensures r == -1 ==> forall i :: from <= i <= |s| ==> !OccursAt(s, pat, i)
    ensures r != -1 ==> forall i :: from <= i < r ==> !OccursAt(s, pat, i)
    decreases |s| - from
  {
    if OccursAt(s, pat, from) then from
    else if from == |s| then -1
    else FindFrom(s, pat, from + 1)
  }

  /** `str.find`: the first occurrence, or -1. */
  function Find(s: string, pat: string): (r: int)
    ensures r == -1 <==> forall i :: 0 <= i <= |s| ==> !OccursAt(s, pat, i)
    ensures r != -1 ==> OccursAt(s, pat, r) && forall i :: 0 <= i < r ==> !OccursAt(s, pat, i)
  {
    FindFrom(s, pat, 0)
  }

  const Separator: string := "://"

  /** `newTransferHandler`: look the name up in the table. */
  function NewTransferHandler(name: string, url: string, transferId: TransferId, itemId: ItemId, psPath: Path): (r: Result<Handler>)
    ensures r.Ok? <==> name in Handlers
    ensures r.Ok? ==> r.value == Handler(Handlers[name], url, transferId, itemId, psPath)
    ensures r.Err? ==> r.error == ValueError("No such handler: \"" + name + "\"")
  {
    if name !in Handlers then Err(ValueError("No such handler: \"" + name + "\""))
    else Ok(Handler(Handlers[name], url, transferId, itemId, psPath))
  }

  /** `getURLTransferHandler`. */
  function GetURLTransferHandler(url: Option<string>, transferId: TransferId, itemId: ItemId, psPath: Path): (r: Result<Handler>)
    ensures url.None? || url.value == "" ==> r == Err(ValueError(""))
    ensures r.Ok? ==>
      (r.value.url == url.value && r.value.transferId == transferId
       && r.value.itemId == itemId && r.value.psPath == psPath)
  {
    match url
    case None => Err(ValueError(""))
    case Some(u) =>
      if u == "" then Err(ValueError(""))
      else
        var ix := Find(u, Separator);
        if ix == -1 then NewTransferHandler("local", u, transferId, itemId, psPath)
        else NewTransferHandler(u[0..ix], u, transferId, itemId, psPath)
  }

  /** A non-empty URL without "://" is served by the local handler. */
  lemma NoSchemeIsLocal(url: string, transferId: TransferId, itemId: ItemId, psPath: Path)
    requires url != ""
    requires forall i :: 0 <= i <= |url| ==> !OccursAt(url, Separator, i)
    ensures GetURLTransferHandler(Some(url), transferId, itemId, psPath) == Ok(Handler(Local, url, transferId, itemId, psPath))
  {
  }

  /** With a scheme that does not itself contain "://", the scheme is exactly
      the text before the separator, whatever follows it. */
  lemma SchemeBeforeFirstSeparator(scheme: string, rest: string, transferId: TransferId, itemId: ItemId, psPath: Path)
    requires forall i :: 0 <= i <= |scheme| ==> !OccursAt(scheme, Separator, i)
    ensures GetURLTransferHandler(Some(scheme + Separator + rest), transferId, itemId, psPath)
      == NewTransferHandler(scheme, scheme + Separator + rest, transferId, itemId, psPath)
  {
    var u := scheme + Separator + rest;
    assert OccursAt(u, Separator, |scheme|) by {
      assert u[|scheme|..|scheme| + 3] == Separator;
    }
    assert u[|scheme|] == ':';
    forall i | 0 <= i < |scheme|
      ensures !OccursAt(u, Separator, i)
    {
      if i + 3 <= |scheme| {
        assert u[i..i + 3] == scheme[i..i + 3];
        assert !OccursAt(scheme, Separator, i);
      } else if i + 2 == |scheme| {
        // the third character would have to be '/', but it starts the separator
        assert u[i..i + 3][2] == u[i + 2] == ':' != Separator[2];
      } else {
        assert u[i..i + 3][1] == u[i + 1] == ':' != Separator[1];
      }
    }
    assert Find(u, Separator) == |scheme|;
    assert u[0..|scheme|] == scheme;
  }

  /** `http` URLs are served by the HTTP handler. */
  lemma HttpScheme(rest: string, transferId: TransferId, itemId: ItemId, psPath: Path)
    ensures GetURLTransferHandler(Some("http://" + rest), transferId, itemId, psPath)
      == Ok(Handler(Http, "http://" + rest, transferId, itemId, psPath))
  {
    LettersHaveNoSeparator("http");
    assert "http://" + rest == "http" + Separator + rest;
    SchemeBeforeFirstSeparator("http", rest, transferId, itemId, psPath);
  }

  /** `file` URLs are served by the local handler. */
  lemma FileScheme(rest: string, transferId: TransferId, itemId: ItemId, psPath: Path)
    ensures GetURLTransferHandler(Some("file://" + rest), transferId, itemId, psPath)
      == Ok(Handler(Local, "file://" + rest, transferId, itemId, psPath))
  {
    LettersHaveNoSeparator("file");
    assert "file://" + rest == "file" + Separator + rest;
    SchemeBeforeFirstSeparator("file", rest, transferId, itemId, psPath);
  }

  /** `https` is not in the table. */
  lemma HttpsUnsupported(rest: string, transferId: TransferId, itemId: ItemId, psPath: Path)
    ensures GetURLTransferHandler(Some("https://" + rest), transferId, itemId, psPath)
      == Err(ValueError("No such handler: \"https\""))
  {
    LettersHaveNoSeparator("https");
    assert "https://" + rest == "https" + Separator + rest;
    SchemeBeforeFirstSeparator("https", rest, transferId, itemId, psPath);
  }

  /** A word of lower-case letters has no "://" in it. */
  lemma LettersHaveNoSeparator(scheme: string)
    requires forall k :: 0 <= k < |scheme| ==> 'a' <= scheme[k] <= 'z'
    ensures forall i :: 0 <= i <= |scheme| ==> !OccursAt(scheme, Separator, i)
  {
    forall i | 0 <= i <= |scheme| && i + 3 <= |scheme|
      ensures !OccursAt(scheme, Separator, i)
    {
      assert scheme[i..i + 3][0] == scheme[i] != Separator[0];
    }
  }
}
