/** Values shared by every part of the help-desk pipeline: optional and
    fallible results, scraped pages and the url -> text corpora that the
    scraper persists (a Python dict, so keys are unique and kept in
    insertion order). */
module Common {

  datatype Option<+T> = None | Some(value: T)

  /** A call that either returns a value or raises an exception whose
      message is `error`. */
  datatype Result<+T> = Success(value: T) | Failure(error: string)

  type Url = string

  /** One entry of a scraped url -> text mapping. */
  datatype Page = Page(url: Url, text: string)

  /** The urls of a page sequence, in order. */
  function Urls(ps: seq<Page>): (us: seq<Url>)
    ensures |us| == |ps|
    ensures forall i :: 0 <= i < |ps| ==> us[i] == ps[i].url
  {
    if ps == [] then [] else [ps[0].url] + Urls(ps[1..])
  }

  /** The urls of two sequences laid end to end. */
  lemma {:induction false} UrlsConcat(a: seq<Page>, b: seq<Page>)
    ensures Urls(a + b) == Urls(a) + Urls(b)
  {
    if a != [] {
      assert (a + b)[1..] == a[1..] + b;
      UrlsConcat(a[1..], b);
    } else {
      assert a + b == b;
    }
  }

  /** No url occurs twice: the sequence is the item list of a dict. */
  predicate UniqueUrls(ps: seq<Page>)
  {
    forall i, j :: 0 <= i < j < |ps| ==> ps[i].url != ps[j].url
  }

  /** A url -> text mapping in its iteration (insertion) order. */
  type Corpus = ps: seq<Page> | UniqueUrls(ps)

  predicate HasUrl(ps: seq<Page>, u: Url)
  {
    exists i :: 0 <= i < |ps| && ps[i].url == u
  }

  /** `d.get(u)`: the text stored under `u`, if any. */
  function Get(ps: seq<Page>, u: Url): (r: Option<string>)
    ensures r.Some? <==> HasUrl(ps, u)
    ensures r.Some? ==> exists i :: 0 <= i < |ps| && ps[i] == Page(u, r.value)
  {
    if ps == [] then None
    else if ps[0].url == u then Some(ps[0].text)
    else
      var r := Get(ps[1..], u);
      assert forall i :: 0 < i < |ps| ==> ps[i] == ps[1..][i - 1];
      assert HasUrl(ps[1..], u) ==> HasUrl(ps, u);
      r
  }

  /** Looking a url up in two sequences laid end to end finds it in the
      first one if it is there. */
  lemma {:induction false} GetConcat(a: seq<Page>, b: seq<Page>, u: Url)
    ensures Get(a + b, u) == if HasUrl(a, u) then Get(a, u) else Get(b, u)
  {
    if a == [] {
      assert a + b == b;
    } else {
      assert (a + b)[0] == a[0];
      assert (a + b)[1..] == a[1..] + b;
      if a[0].url == u {
        assert HasUrl(a, u);
      } else {
        GetConcat(a[1..], b, u);
        if HasUrl(a, u) {
          var i :| 0 <= i < |a| && a[i].url == u;
          assert a[1..][i - 1] == a[i];
        }
        if HasUrl(a[1..], u) {
          var i :| 0 <= i < |a| - 1 && a[1..][i].url == u;
          assert a[i + 1] == a[1..][i];
        }
        assert HasUrl(a, u) <==> HasUrl(a[1..], u);
      }
    }
  }

  /** In a dict the text found under a key is the one stored at its entry. */
  lemma {:induction false} GetAt(ps: seq<Page>, i: nat)
    requires UniqueUrls(ps)
    requires i < |ps|
    ensures Get(ps, ps[i].url) == Some(ps[i].text)
  {
    if i > 0 {
      assert ps[0].url != ps[i].url;
      assert ps[1..][i - 1] == ps[i];
      GetAt(ps[1..], i - 1);
    }
  }

  /** A langchain `Document`: page text and string metadata. */
  datatype Document = Document(pageContent: string, metadata: map<string, string>)

  function Min(a: int, b: int): int
  {
    if a <= b then a else b
  }
}
