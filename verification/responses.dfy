/** Web responses, reduced to what the application decides: which page is
    rendered, or where the browser is redirected together with the flash
    messages, validation errors and old input stored for the next request. */
module Responses {
  import opened Request
  import opened Validation

  /** A redirect target: a named route, a path, or the previous URL (`back()`). */
  datatype Target = Route(name: string) | Path(path: string) | Back

  datatype WebResponse =
    | Render(page: string)
    | Redirect(target: Target, flash: map<string, string>, errors: ErrorBag, oldInput: Input)

  /** A redirect carrying one flash message and nothing else. */
  function RedirectFlashing(target: Target, key: string, message: string): WebResponse {
    Redirect(target, map[key := message], map[], map[])
  }
}
