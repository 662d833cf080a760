/**
 * The Microsoft Graph drive-item URLs the sync tool builds. Both endpoints
 * address an item by path under the configured destination folder of the
 * configured user's drive:
 *   https://graph.microsoft.com/v1.0/users/{user}/drive/root:/{destination}/{path}:/content
 *   https://graph.microsoft.com/v1.0/users/{user}/drive/root:/{destination}/{path}:/children
 */
module GraphUrls {
  import opened Wrappers

  const GraphUsers: string := "https://graph.microsoft.com/v1.0/users/"
  const DriveRoot: string := "/drive/root:/"
  const ContentSuffix: string := ":/content"
  const ChildrenSuffix: string := ":/children"

  /** Everything in front of the item path: fixed host, user id, destination folder. */
  function ItemPrefix(userId: string, destination: string): (prefix: string) {
    GraphUsers + userId + DriveRoot + destination + "/"
  }

  /** The endpoint a file's bytes are PUT to. */
  function ContentUrl(userId: string, destination: string, path: string): (url: string)
    ensures |url| == |ItemPrefix(userId, destination)| + |path| + |ContentSuffix|
    ensures url[..|GraphUsers|] == GraphUsers
  {
    ItemPrefix(userId, destination) + path + ContentSuffix
  }

  /** The endpoint a folder-creation request is POSTed to. */
  function ChildrenUrl(userId: string, destination: string, path: string): (url: string)
    ensures |url| == |ItemPrefix(userId, destination)| + |path| + |ChildrenSuffix|
    ensures url[..|GraphUsers|] == GraphUsers
  {
    ItemPrefix(userId, destination) + path + ChildrenSuffix
  }

  /**
   * Reads back the item path of a URL framed by `prefix` and `suffix`;
   * None when the URL does not carry that frame.
   */
  function Framed(prefix: string, suffix: string, url: string): (r: Option<string>)
    ensures r.Some? ==> prefix + r.value + suffix == url
  {
    if |prefix| + |suffix| <= |url| && url[..|prefix|] == prefix && url[|url| - |suffix|..] == suffix then
      var path := url[|prefix|..|url| - |suffix|];
      assert prefix + path + suffix == url by {
        assert url == url[..|prefix|] + url[|prefix|..|url| - |suffix|] + url[|url| - |suffix|..];
      }
      Some(path)
    else
      None
  }

  /** Every URL that does carry the frame decodes, to the path between prefix and suffix. */
  lemma FramedComplete(prefix: string, suffix: string, path: string)
    ensures Framed(prefix, suffix, prefix + path + suffix) == Some(path)
  {
    var url := prefix + path + suffix;
    assert url[..|prefix|] == prefix;
    assert url[|url| - |suffix|..] == suffix;
    assert url[|prefix|..|url| - |suffix|] == path;
  }

  /** The item path a content URL addresses, if `url` is one for this user and destination. */
  function ContentTarget(userId: string, destination: string, url: string): (path: Option<string>) {
    Framed(ItemPrefix(userId, destination), ContentSuffix, url)
  }

  /** The item path a folder-creation URL addresses, if `url` is one for this user and destination. */
  function ChildrenTarget(userId: string, destination: string, url: string): (path: Option<string>) {
    Framed(ItemPrefix(userId, destination), ChildrenSuffix, url)
  }

  /** Decoding a content URL gives back exactly the path it was built from. */
  lemma ContentUrlRoundTrip(userId: string, destination: string, path: string)
    ensures ContentTarget(userId, destination, ContentUrl(userId, destination, path)) == Some(path)
  {
    FramedComplete(ItemPrefix(userId, destination), ContentSuffix, path);
  }

  /** Conversely, every URL that decodes to a path is the content URL of that path. */
  lemma ContentTargetSound(userId: string, destination: string, url: string, path: string)
    requires ContentTarget(userId, destination, url) == Some(path)
    ensures ContentUrl(userId, destination, path) == url
  {
  }

  /** Distinct item paths never share a content URL. */
  lemma ContentUrlInjective(userId: string, destination: string, p: string, q: string)
    requires ContentUrl(userId, destination, p) == ContentUrl(userId, destination, q)
    ensures p == q
  {
    ContentUrlRoundTrip(userId, destination, p);
    ContentUrlRoundTrip(userId, destination, q);
  }

  /** An upload endpoint is never a folder-creation endpoint, whatever the two paths. */
  lemma ContentIsNotChildren(userId: string, destination: string, p: string, q: string)
    ensures ContentUrl(userId, destination, p) != ChildrenUrl(userId, destination, q)
  {
    var c := ContentUrl(userId, destination, p);
    var h := ChildrenUrl(userId, destination, q);
    if |c| == |h| {
      assert c[|c| - 1] == 't';
      assert h[|h| - 1] == 'n';
    }
  }
}
