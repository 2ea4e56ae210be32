/**
 * The pagination store (src/stores/paginationStore.ts): the requested page and
 * the page size. Neither is validated here; `Paginate.PaginateMessages` clamps
 * the page when it is used.
 */
module PaginationStore {
  const DEFAULT_PAGE: int := 1
  const DEFAULT_ITEMS_PER_PAGE: int := 20

  class PaginationState {
    var currentPage: int
    var itemsPerPage: int

    /** The initial state: page 1 of 20 messages each. */
    constructor ()
      ensures currentPage == DEFAULT_PAGE && itemsPerPage == DEFAULT_ITEMS_PER_PAGE
    {
      currentPage := DEFAULT_PAGE;
      itemsPerPage := DEFAULT_ITEMS_PER_PAGE;
    }

    /** Stores any page number as given; the size is kept. */
    method SetCurrentPage(page: int)
      modifies this
      ensures currentPage == page && itemsPerPage == old(itemsPerPage)
    {
      currentPage := page;
    }

    /** Stores the page size and goes back to the first page. */
    method SetItemsPerPage(items: int)
      modifies this
      ensures itemsPerPage == items && currentPage == DEFAULT_PAGE
    {
      itemsPerPage := items;
      currentPage := DEFAULT_PAGE;
    }

    /** Back to the initial state. */
    method ResetPagination()
      modifies this
      ensures currentPage == DEFAULT_PAGE && itemsPerPage == DEFAULT_ITEMS_PER_PAGE
    {
      currentPage := DEFAULT_PAGE;
      itemsPerPage := DEFAULT_ITEMS_PER_PAGE;
    }
  }
}
