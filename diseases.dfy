/**
 * The catalog of diseases the risk model scores (supabase/functions/_shared/diseases.ts), and
 * the copy of it without the dietary concerns that the diseases-meta edge function serves
 * (supabase/functions/diseases-meta/index.ts).
 */
module Diseases {
  import opened Options
  import opened Json

  /** A disease: its id, its name, a description and the dietary concern that goes with it. */
  datatype Disease = Disease(id: string, name: string, description: string, concerns: string)

  /** An entry of the served copy: the same without the concern. */
  datatype DiseaseMeta = DiseaseMeta(id: string, name: string, description: string)

  const Catalog: seq<Disease> := [
    Disease("htn", "고혈압", "혈압이 정상보다 높은 상태", "나트륨 함량이 높으면 위험"),
    Disease("dm", "당뇨병", "혈당이 정상보다 높은 상태", "당분과 탄수화물 함량이 높으면 위험"),
    Disease("dyslipidemia", "고지혈증", "혈중 지질 수치가 높은 상태", "포화지방과 콜레스테롤이 높으면 위험"),
    Disease("obesity", "비만", "체질량지수가 높은 상태", "칼로리와 지방이 높으면 위험"),
    Disease("kidney", "신장질환", "신장 기능이 저하된 상태", "나트륨, 칼륨, 인이 높으면 위험"),
    Disease("liver", "간질환", "간 기능이 저하된 상태", "지방과 알코올이 많으면 위험"),
    Disease("gout", "통풍", "요산이 과다하게 축적되는 상태", "퓨린 함량이 높으면 위험")
  ]

  /** The list written out again in the diseases-meta handler. */
  const MetaCatalog: seq<DiseaseMeta> := [
    DiseaseMeta("htn", "고혈압", "혈압이 정상보다 높은 상태"),
    DiseaseMeta("dm", "당뇨병", "혈당이 정상보다 높은 상태"),
    DiseaseMeta("dyslipidemia", "고지혈증", "혈중 지질 수치가 높은 상태"),
    DiseaseMeta("obesity", "비만", "체질량지수가 높은 상태"),
    DiseaseMeta("kidney", "신장질환", "신장 기능이 저하된 상태"),
    DiseaseMeta("liver", "간질환", "간 기능이 저하된 상태"),
    DiseaseMeta("gout", "통풍", "요산이 과다하게 축적되는 상태")
  ]

  function Meta(d: Disease): DiseaseMeta {
    DiseaseMeta(d.id, d.name, d.description)
  }

  /** The ids of a list of diseases, in order. */
  function Ids(diseases: seq<Disease>): (ids: seq<string>)
    ensures |ids| == |diseases|
    ensures forall i :: 0 <= i < |diseases| ==> ids[i] == diseases[i].id
  {
    if diseases == [] then [] else [diseases[0].id] + Ids(diseases[1..])
  }

  predicate DistinctIds(diseases: seq<Disease>) {
    forall i, j :: 0 <= i < j < |diseases| ==> diseases[i].id != diseases[j].id
  }

  /** The first entry with the given id. */
  function Lookup(diseases: seq<Disease>, id: string): (r: Option<Disease>)
    ensures r.None? <==> forall i :: 0 <= i < |diseases| ==> diseases[i].id != id
    ensures r.Some? ==> r.value in diseases && r.value.id == id
  {
    if diseases == [] then None
    else if diseases[0].id == id then Some(diseases[0])
    else Lookup(diseases[1..], id)
  }

  /** With distinct ids every entry is what looking up its id gives. */
  lemma {:induction false} LookupFindsEntry(diseases: seq<Disease>, i: nat)
    requires DistinctIds(diseases) && i < |diseases|
    ensures Lookup(diseases, diseases[i].id) == Some(diseases[i])
  {
    if i > 0 {
      var tail := diseases[1..];
      assert tail[i - 1] == diseases[i];
      assert DistinctIds(tail) by {
        forall a, b | 0 <= a < b < |tail|
          ensures tail[a].id != tail[b].id
        {
          assert tail[a] == diseases[a + 1] && tail[b] == diseases[b + 1];
        }
      }
      assert diseases[0].id != diseases[i].id;
      LookupFindsEntry(tail, i - 1);
    }
  }

  /** The catalog has seven entries, in this order of ids. */
  lemma CatalogIds()
    ensures Ids(Catalog) == ["htn", "dm", "dyslipidemia", "obesity", "kidney", "liver", "gout"]
  {
  }

  /** No two entries share an id, so lookup by id names exactly one entry. */
  lemma CatalogIdsDistinct()
    ensures DistinctIds(Catalog)
  {
    CatalogIds();
    var ids := Ids(Catalog);
    assert forall i, j :: 0 <= i < j < |ids| ==> ids[i] != ids[j];
  }

  /** Looking up the id of any catalog entry gives that entry. */
  lemma CatalogLookup(i: nat)
    requires i < |Catalog|
    ensures Lookup(Catalog, Catalog[i].id) == Some(Catalog[i])
  {
    CatalogIdsDistinct();
    LookupFindsEntry(Catalog, i);
  }

  /** Every entry has a non-empty id, name, description and concern. */
  lemma CatalogFieldsNonEmpty()
    ensures forall i :: 0 <= i < |Catalog| ==>
      Catalog[i].id != [] && Catalog[i].name != [] && Catalog[i].description != [] && Catalog[i].concerns != []
  {
  }

  /** The served copy is the catalog with the concerns dropped, entry by entry and in the same order. */
  lemma MetaCatalogIsProjection()
    ensures |MetaCatalog| == |Catalog|
    ensures forall i :: 0 <= i < |Catalog| ==> MetaCatalog[i] == Meta(Catalog[i])
  {
  }

  // ---------------------------------------------------------------------------
  // The diseases-meta handler

  function MetaJson(m: DiseaseMeta): Json {
    StringObject(map["id" := m.id, "name" := m.name, "description" := m.description])
  }

  /** The handler: the preflight, or 200 with `{ items }` listing the served copy. */
  function MetaResponse(httpMethod: string): (r: Response)
    ensures httpMethod == "OPTIONS" ==> r == Preflight
    ensures httpMethod != "OPTIONS" ==>
      r.status == 200 && r.headers == JsonResponse(200, JNull).headers
      && r.body.JsonBody? && r.body.value.JObject?
      && r.body.value.fields.Keys == {"items"} && r.body.value.fields["items"].JArray?
      && |r.body.value.fields["items"].items| == |Catalog|
      && forall i :: 0 <= i < |Catalog| ==> r.body.value.fields["items"].items[i] == MetaJson(Meta(Catalog[i]))
  {
    if httpMethod == "OPTIONS" then Preflight
    else
      MetaCatalogIsProjection();
      JsonResponse(200, JObject(map["items" := JArray(seq(|MetaCatalog|, i requires 0 <= i < |MetaCatalog| => MetaJson(MetaCatalog[i])))]))
  }
}
