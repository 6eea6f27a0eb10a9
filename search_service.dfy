/** `SearchService`: wraps the result of the repository's search. The query itself is
    not part of this model: `search` stands for `searchDocuments`, and its `Err` for an
    error it throws. */
module SearchService {
  import opened Wrappers
  import opened Entities
  import opened DocumentMapper

  const NoMatch := "No documents match the search criteria"
  const Retrieved := "Documents retrieved successfully"
  const SearchFailed := "Failed to perform advanced search"

  datatype SearchCriteria = SearchCriteria(
    tags: seq<string>,
    fileName: Option<string>,
    contentType: Option<string>)

  datatype SearchResult = SearchResult(documents: seq<DocumentDTO>, totalResults: int, message: string)

  /** `advancedSearch`: no match is a failure; otherwise one DTO per document found, in
      order, with their number. */
  function AdvancedSearch(search: SearchCriteria -> Result<seq<DocumentRecord>>,
      criteria: SearchCriteria): (r: Either<SearchResult>)
    ensures search(criteria).Err? ==> r == Failure(SearchFailed)
    ensures search(criteria) == Ok([]) ==> r == Failure(NoMatch)
    ensures r.Success? <==> search(criteria).Ok? && search(criteria).value != []
    ensures r.Success? ==>
      var found := search(criteria).value;
      && r.value.message == Retrieved
      && r.value.totalResults == |r.value.documents| == |found|
      && forall k :: 0 <= k < |found| ==> r.value.documents[k] == ToDTO(found[k])
  {
    match search(criteria)
    case Err(_) => Failure(SearchFailed)
    case Ok(documents) =>
      if |documents| == 0 then Failure(NoMatch)
      else Success(SearchResult(ToDTOs(documents), |documents|, Retrieved))
  }

  /** Every DTO of a result gives back the document it was made from. */
  lemma {:induction false} ResultsRebuildDocuments(
      search: SearchCriteria -> Result<seq<DocumentRecord>>, criteria: SearchCriteria)
    requires AdvancedSearch(search, criteria).Success?
    ensures var r := AdvancedSearch(search, criteria).value;
      forall k :: 0 <= k < |r.documents| ==> FromDTO(r.documents[k]) == Ok(search(criteria).value[k])
  {
    var r := AdvancedSearch(search, criteria).value;
    var found := search(criteria).value;
    forall k | 0 <= k < |r.documents|
      ensures FromDTO(r.documents[k]) == Ok(found[k])
    {
      FromDTOOfToDTO(found[k]);
    }
  }
}
