/**
 * The share menu: the tracked share link and what each network button
 * opens.
 */
module ShareButton {
  import opened Text

  const Http := "http"
  const Medium := "&utm_medium=social"

  /** A site-relative url is prefixed with the site origin; an absolute one is kept. */
  function FullUrl(siteUrl: string, url: string): string
  {
    if StartsWith(url, Http) then url else siteUrl + url
  }

  /** `"&"` when the url already has a query, `"?"` otherwise. */
  function Separator(fullUrl: string): string
  {
    if '?' in fullUrl then "&" else "?"
  }

  /** `buildShareUrl`. */
  function ShareUrl(siteUrl: string, url: string, source: string): string
  {
    var full := FullUrl(siteUrl, url);
    full + Separator(full) + "utm_source=" + source + Medium
  }

  /**
   * The share link starts with the full url, whose origin part is added
   * only to relative urls; the tracking parameters follow after `?` or,
   * when the url already has a query, after `&`, so the link always has a query.
   */
  lemma ShareUrlShape(siteUrl: string, url: string, source: string)
    ensures var full := FullUrl(siteUrl, url);
      (StartsWith(url, Http) ==> full == url)
      && (!StartsWith(url, Http) ==> full == siteUrl + url)
      && StartsWith(ShareUrl(siteUrl, url, source), full)
      && ShareUrl(siteUrl, url, source)[|full|..] == Separator(full) + "utm_source=" + source + Medium
      && (Separator(full) == "&" <==> '?' in full)
      && '?' in ShareUrl(siteUrl, url, source)
  {
    var full := FullUrl(siteUrl, url);
    var r := ShareUrl(siteUrl, url, source);
    assert r == full + (Separator(full) + "utm_source=" + source + Medium);
    if '?' in full {
      var k :| 0 <= k < |full| && full[k] == '?';
      assert r[k] == '?';
    } else {
      assert r[|full|] == '?';
    }
  }

  datatype Network = WhatsApp | Facebook | LinkedIn | Clipboard | OtherNetwork

  /** What a share button does outside the menu: open a window, or write the clipboard. */
  datatype ShareAction = OpenWindow(target: string) | CopyToClipboard(text: string) | NoAction

  function NetworkKey(n: Network): string
  {
    match n
    case WhatsApp => "whatsapp"
    case Facebook => "facebook"
    case LinkedIn => "linkedin"
    case Clipboard => "clipboard"
    case OtherNetwork => "other"
  }

  /** The WhatsApp message: the title, a space, the link. */
  function WhatsAppText(title: string, shareUrl: string): (r: string)
    ensures |r| == |title| + 1 + |shareUrl| && StartsWith(r, title) && r[|title|] == ' ' && r[|title| + 1..] == shareUrl
  {
    title + " " + shareUrl
  }

  /** The action of one network; `enc` is `encodeURIComponent`. */
  function Action(n: Network, siteUrl: string, url: string, title: string, enc: string -> string): ShareAction
  {
    var shareUrl := ShareUrl(siteUrl, url, NetworkKey(n));
    match n
    case WhatsApp => OpenWindow("https://wa.me/?text=" + enc(WhatsAppText(title, shareUrl)))
    case Facebook => OpenWindow("https://www.facebook.com/sharer/sharer.php?u=" + enc(shareUrl))
    case LinkedIn => OpenWindow("https://www.linkedin.com/sharing/share-offsite/?url=" + enc(shareUrl))
    case Clipboard => CopyToClipboard(shareUrl)
    case OtherNetwork => NoAction
  }

  class ShareMenu {
    const siteUrl: string
    const url: string
    const title: string
    var open: bool
    var copied: bool

    constructor (siteUrl: string, url: string, title: string)
      ensures this.siteUrl == siteUrl && this.url == url && this.title == title
      ensures !open && !copied
    {
      this.siteUrl := siteUrl;
      this.url := url;
      this.title := title;
      open := false;
      copied := false;
    }

    method Toggle()
      modifies this`open
      ensures open == !old(open)
    {
      open := !open;
    }

    /** A mouse-down outside the open menu closes it. */
    method OutsideClick()
      modifies this`open
      ensures !open
    {
      open := false;
    }

    /** `share`: performs the network's action; the menu closes for every network but the clipboard. */
    method Share(n: Network, enc: string -> string) returns (action: ShareAction)
      modifies this`open
      ensures action == Action(n, siteUrl, url, title, enc)
      ensures open == (old(open) && n == Clipboard)
    {
      action := Action(n, siteUrl, url, title, enc);
      if n != Clipboard {
        open := false;
      }
    }

    /** The clipboard write resolved: the "copied" mark shows. */
    method Copied()
      modifies this`copied
      ensures copied
    {
      copied := true;
    }

    /** Two seconds later the mark goes away. */
    method CopiedExpired()
      modifies this`copied
      ensures !copied
    {
      copied := false;
    }
  }
}
