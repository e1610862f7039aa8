/**
 * `Pagination`: a previous control when the page is past the first, a next
 * control when the list says a next page exists. Each targets the adjacent
 * page; with a URL parameter name it carries the link that sets that
 * parameter to the target, and clicking it reports the target to
 * `onChangePage` when one is given.
 */
module PaginationView {
  import opened Wrappers
  import opened Text
  import opened LocationSearch

  /** JavaScript truthiness of an optional string: present and not empty. */
  predicate Truthy(name: Option<string>)
  {
    name.Some? && name.value != ""
  }

  /** The component's props; `onChangePage` records only whether a handler is given. */
  datatype Props = Props(
    page: int,
    countOnPage: int,
    hasNextPage: bool,
    queryParamPage: Option<string>,
    onChangePage: bool)

  /** A rendered control: the page it targets and its link, if any. */
  datatype Control = Control(target: int, href: Option<string>)

  /** The `href` of a control for `target` in the location `pathname`, `params`. */
  function PageLink(props: Props, pathname: string, params: Params, target: int): (href: Option<string>)
    ensures href.Some? <==> Truthy(props.queryParamPage)
    ensures href.Some? ==> href.value == Link(pathname, Assign(params, props.queryParamPage.value, Some(IntToString(target))))
  {
    if Truthy(props.queryParamPage)
    then Some(Link(pathname, Assign(params, props.queryParamPage.value, Some(IntToString(target)))))
    else None
  }

  /** The previous control: present exactly when `page > 0`, targeting `page - 1`. */
  function Previous(props: Props, pathname: string, params: Params): (c: Option<Control>)
    ensures c.Some? <==> props.page > 0
    ensures c.Some? ==> c.value.target == props.page - 1 &&
                        c.value.href == PageLink(props, pathname, params, props.page - 1)
  {
    if props.page > 0 then Some(Control(props.page - 1, PageLink(props, pathname, params, props.page - 1)))
    else None
  }

  /** The next control: present exactly when `hasNextPage`, targeting `page + 1`. */
  function Next(props: Props, pathname: string, params: Params): (c: Option<Control>)
    ensures c.Some? <==> props.hasNextPage
    ensures c.Some? ==> c.value.target == props.page + 1 &&
                        c.value.href == PageLink(props, pathname, params, props.page + 1)
  {
    if props.hasNextPage then Some(Control(props.page + 1, PageLink(props, pathname, params, props.page + 1)))
    else None
  }

  /** A click: `onChangePage(target)` when a handler is given, nothing otherwise. */
  function Click(props: Props, c: Control): (call: Option<int>)
    ensures call.Some? <==> props.onChangePage
    ensures call.Some? ==> call.value == c.target
  {
    if props.onChangePage then Some(c.target) else None
  }

  /** The two controls target the pages on either side of the current one. */
  lemma ControlsAdjacent(props: Props, pathname: string, params: Params)
    requires Previous(props, pathname, params).Some? && Next(props, pathname, params).Some?
    ensures Next(props, pathname, params).value.target - Previous(props, pathname, params).value.target == 2
    ensures Previous(props, pathname, params).value.target >= 0
  {
  }
}
