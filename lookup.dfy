/**
 * Choosing the car model of the page from the model-lookup response, and the brand id of the
 * site section the page lives under.
 */
module Lookup {
  import opened Wrappers
  import opened Seqs

  datatype Model = Model(id: int, name: string, slug: Option<string>, price: Option<int>)

  /**
   * The decoded response body: an array of models, a single model object, or anything else
   * (`null`, a number, a string).
   */
  datatype ModelResponse = ModelArray(models: seq<Model>) | ModelObject(model: Model) | Other

  function HasSlug(slug: string): Model -> bool {
    (m: Model) => m.slug == Some(slug)
  }

  /**
   * `fetchModelBySlug` after a successful request: the first array element whose slug is the
   * requested one, or a single object only if its own slug is the requested one. `None` stands
   * for the "not found" error the page raises otherwise.
   */
  function FindModelBySlug(resp: ModelResponse, slug: string): (r: Option<Model>)
    ensures r.Some? ==> r.value.slug == Some(slug)
    ensures resp.ModelArray? ==>
              (r.Some? <==> exists i :: 0 <= i < |resp.models| && resp.models[i].slug == Some(slug))
    ensures resp.ModelArray? && r.Some? ==>
              exists i :: 0 <= i < |resp.models| && resp.models[i] == r.value
                          && forall j :: 0 <= j < i ==> resp.models[j].slug != Some(slug)
    ensures resp.ModelObject? ==> (r.Some? <==> resp.model.slug == Some(slug))
    ensures resp.ModelObject? && r.Some? ==> r.value == resp.model
    ensures resp.Other? ==> r.None?
  {
    match resp
    case ModelArray(models) =>
      (match FirstWhere(models, HasSlug(slug))
       case Some(i) => Some(models[i])
       case None => None)
    case ModelObject(m) => if m.slug == Some(slug) then Some(m) else None
    case Other => None
  }

  /**
   * `getBrandIdFromSlug`: the lookup table { peugeot: 1, citroen: 2 }; any other slug is
   * `undefined` (`None`).
   */
  function BrandIdFromSlug(brandSlug: string): (r: Option<int>)
    ensures r == Some(1) <==> brandSlug == "peugeot"
    ensures r == Some(2) <==> brandSlug == "citroen"
    ensures r.Some? ==> r == Some(1) || r == Some(2)
  {
    if brandSlug == "peugeot" then Some(1)
    else if brandSlug == "citroen" then Some(2)
    else None
  }
}
