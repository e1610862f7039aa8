/**
 * The paging state of `Grid`: `{page, countOnPage}`, taken from URL
 * parameters when the grid is bound to them and from the defaults otherwise,
 * updated when the URL changes, and updated by `Pagination` clicks only when
 * the page is not bound to the URL (a bound grid pages by navigating).
 */
module GridPaging {
  import opened Wrappers
  import opened Text
  import opened Source
  import opened StaticQuery
  import opened LocationSearch
  import opened PaginationView
  import opened UseSource

  /** The grid's `pagination` prop. */
  datatype Config = Config(
    queryParamPage: Option<string>,
    queryParamCountOnPage: Option<string>,
    defaultCountPage: int,
    defaultPage: Option<int>)

  datatype Paging = Paging(page: int, countOnPage: int)

  /**
   * `name && Number(params[name])`: the number in the URL parameter `name`;
   * NaN for a falsy name (which is itself falsy), a missing parameter or one
   * without a value.
   */
  function UrlNumber(params: Params, name: Option<string>): (n: JsNumber)
    ensures !Truthy(name) ==> n == NaN
    ensures Truthy(name) && Lookup(params, name.value).Some? && Lookup(params, name.value).value.Some? ==>
              n == ParseNumber(Lookup(params, name.value).value.value)
    ensures Truthy(name) && !(Lookup(params, name.value).Some? && Lookup(params, name.value).value.Some?) ==> n == NaN
  {
    if !Truthy(name) then NaN
    else match Lookup(params, name.value)
      case Some(Some(text)) => ParseNumber(text)
      case _ => NaN
  }

  /**
   * The state the grid starts with: a truthy URL page, else a truthy
   * `defaultPage`, else 0; a truthy URL count, else `defaultCountPage`.
   */
  function InitialState(cfg: Config, params: Params): (s: Paging)
    ensures UrlNumber(params, cfg.queryParamPage).Truthy() ==> s.page == UrlNumber(params, cfg.queryParamPage).value
    ensures !UrlNumber(params, cfg.queryParamPage).Truthy() && cfg.defaultPage.Some? && cfg.defaultPage.value != 0 ==>
              s.page == cfg.defaultPage.value
    ensures !UrlNumber(params, cfg.queryParamPage).Truthy() && !(cfg.defaultPage.Some? && cfg.defaultPage.value != 0) ==>
              s.page == 0
    ensures UrlNumber(params, cfg.queryParamCountOnPage).Truthy() ==>
              s.countOnPage == UrlNumber(params, cfg.queryParamCountOnPage).value
    ensures !UrlNumber(params, cfg.queryParamCountOnPage).Truthy() ==> s.countOnPage == cfg.defaultCountPage
  {
    var urlPage := UrlNumber(params, cfg.queryParamPage);
    var urlCount := UrlNumber(params, cfg.queryParamCountOnPage);
    Paging(
      if urlPage.Truthy() then urlPage.value
      else if cfg.defaultPage.Some? && cfg.defaultPage.value != 0 then cfg.defaultPage.value
      else 0,
      if urlCount.Truthy() then urlCount.value else cfg.defaultCountPage)
  }

  /**
   * The URL-change effect: a bound page takes the URL's number when it is
   * above -1; a bound count takes the URL's truthy number or the default, when
   * that is above -1; anything else keeps its old value.
   */
  function UrlChange(cfg: Config, params: Params, prev: Paging): (s: Paging)
    ensures s.page == prev.page || s.page >= 0
    ensures s.countOnPage == prev.countOnPage || s.countOnPage >= 0
  {
    var newPage := if Truthy(cfg.queryParamPage) then UrlNumber(params, cfg.queryParamPage) else Int(-1);
    var urlCount := UrlNumber(params, cfg.queryParamCountOnPage);
    var newCountOnPage :=
      if Truthy(cfg.queryParamCountOnPage) then (if urlCount.Truthy() then urlCount.value else cfg.defaultCountPage)
      else -1;
    Paging(
      if newPage.Int? && newPage.value > -1 then newPage.value else prev.page,
      if newCountOnPage > -1 then newCountOnPage else prev.countOnPage)
  }

  /** `onChangePage(page)`: a grid whose page is not bound to the URL moves to it; a bound grid ignores it. */
  function ChangePage(cfg: Config, prev: Paging, page: int): (s: Paging)
    ensures Truthy(cfg.queryParamPage) ==> s == prev
    ensures !Truthy(cfg.queryParamPage) ==> s == Paging(page, prev.countOnPage)
  {
    if Truthy(cfg.queryParamPage) then prev else Paging(page, prev.countOnPage)
  }

  /** The props the grid gives `Pagination`; a missing `hasNextPage` is false. */
  function PaginationProps(cfg: Config, state: Paging, meta: Meta): (props: Props)
    ensures props.page == state.page && props.countOnPage == state.countOnPage
    ensures props.hasNextPage <==> meta.hasNextPage == Some(true)
    ensures props.queryParamPage == cfg.queryParamPage && props.onChangePage
  {
    Props(state.page, state.countOnPage, meta.hasNextPage == Some(true), cfg.queryParamPage, true)
  }

  // ---------------------------------------------------------------------------
  // properties

  /** Applying the same URL twice changes nothing more. */
  lemma UrlChangeIdempotent(cfg: Config, params: Params, s: Paging)
    ensures UrlChange(cfg, params, UrlChange(cfg, params, s)) == UrlChange(cfg, params, s)
  {
  }

  /**
   * What is not bound to the URL, or is bound to a missing, non-numeric or
   * negative parameter, keeps its value; so does a bound count whose fallback
   * (the URL number when truthy, else the default) is negative.
   */
  lemma UrlChangeKeeps(cfg: Config, params: Params, s: Paging)
    ensures !Truthy(cfg.queryParamPage) || UrlNumber(params, cfg.queryParamPage) == NaN ==>
              UrlChange(cfg, params, s).page == s.page
    ensures Truthy(cfg.queryParamPage) && UrlNumber(params, cfg.queryParamPage).Int? &&
            UrlNumber(params, cfg.queryParamPage).value < 0 ==>
              UrlChange(cfg, params, s).page == s.page
    ensures !Truthy(cfg.queryParamCountOnPage) ==> UrlChange(cfg, params, s).countOnPage == s.countOnPage
    ensures Truthy(cfg.queryParamCountOnPage) && UrlNumber(params, cfg.queryParamCountOnPage).Truthy() &&
            UrlNumber(params, cfg.queryParamCountOnPage).value < 0 ==>
              UrlChange(cfg, params, s).countOnPage == s.countOnPage
    ensures Truthy(cfg.queryParamCountOnPage) && !UrlNumber(params, cfg.queryParamCountOnPage).Truthy() &&
            cfg.defaultCountPage < 0 ==>
              UrlChange(cfg, params, s).countOnPage == s.countOnPage
  {
  }

  /**
   * A bound page takes any non-negative URL number; a bound count takes a
   * truthy non-negative URL number, and falls back to a non-negative default
   * on 0 or NaN.
   */
  lemma UrlChangeTakes(cfg: Config, params: Params, s: Paging)
    ensures Truthy(cfg.queryParamPage) && UrlNumber(params, cfg.queryParamPage).Int? &&
            UrlNumber(params, cfg.queryParamPage).value >= 0 ==>
              UrlChange(cfg, params, s).page == UrlNumber(params, cfg.queryParamPage).value
    ensures Truthy(cfg.queryParamCountOnPage) && UrlNumber(params, cfg.queryParamCountOnPage).Truthy() &&
            UrlNumber(params, cfg.queryParamCountOnPage).value > -1 ==>
              UrlChange(cfg, params, s).countOnPage == UrlNumber(params, cfg.queryParamCountOnPage).value
    ensures Truthy(cfg.queryParamCountOnPage) && !UrlNumber(params, cfg.queryParamCountOnPage).Truthy() &&
            cfg.defaultCountPage >= 0 ==>
              UrlChange(cfg, params, s).countOnPage == cfg.defaultCountPage
  {
  }

  /**
   * A bound URL page of 0 is falsy, so the grid starts on `defaultPage`; the
   * URL-change effect that runs once mounted then moves it to page 0.
   */
  lemma UrlPageZeroOnMount(cfg: Config, params: Params)
    requires Truthy(cfg.queryParamPage) && Lookup(params, cfg.queryParamPage.value) == Some(Some("0"))
    requires cfg.defaultPage.Some? && cfg.defaultPage.value != 0
    ensures InitialState(cfg, params).page == cfg.defaultPage.value
    ensures UrlChange(cfg, params, InitialState(cfg, params)).page == 0
  {
    assert AllDigits("0");
    assert DigitsValue("0") == 0 by { assert "0"[..0] == ""; }
  }

  /** Following a link that sets the bound page parameter to `target` moves a bound grid to `target`. */
  lemma FollowPageLink(cfg: Config, state: Paging, pathname: string, params: Params, target: int,
                                         href: string)
    requires Truthy(cfg.queryParamPage) && '?' !in pathname && target >= 0
    requires LinkSafe(Assign(params, cfg.queryParamPage.value, Some(IntToString(target))))
    requires href == Link(pathname, Assign(params, cfg.queryParamPage.value, Some(IntToString(target))))
    ensures UrlChange(cfg, Parse(href[|pathname|..]), state).page == target
  {
    var name := cfg.queryParamPage.value;
    var ps := Assign(params, name, Some(IntToString(target)));
    assert Parse(href[|pathname|..]) == ps by {
      FollowLink(pathname, params, name, Some(IntToString(target)));
    }
    assert UrlNumber(ps, cfg.queryParamPage) == Int(target) by {
      assert Lookup(ps, name) == Some(Some(IntToString(target)));
      IntToStringRoundTrip(target);
    }
  }

  /**
   * Following the next control's link in a grid bound to the URL moves it to
   * the next page, once the new location is parsed and the URL-change effect
   * runs.
   */
  lemma NextLinkAdvances(cfg: Config, state: Paging, meta: Meta, pathname: string, params: Params)
    requires Truthy(cfg.queryParamPage) && '?' !in pathname
    requires meta.hasNextPage == Some(true) && state.page >= -1
    requires LinkSafe(Assign(params, cfg.queryParamPage.value, Some(IntToString(state.page + 1))))
    ensures var c := Next(PaginationProps(cfg, state, meta), pathname, params);
            c.Some? && c.value.href.Some? &&
            UrlChange(cfg, Parse(c.value.href.value[|pathname|..]), state).page == state.page + 1
  {
    FollowPageLink(cfg, state, pathname, params, state.page + 1,
                   Link(pathname, Assign(params, cfg.queryParamPage.value, Some(IntToString(state.page + 1)))));
    BoundControlLinks(cfg, state, meta, pathname, params);
  }

  /** In a bound grid, each control shown links to the location with the page parameter set to its target. */
  lemma BoundControlLinks(cfg: Config, state: Paging, meta: Meta, pathname: string, params: Params)
    requires Truthy(cfg.queryParamPage)
    ensures var c := Next(PaginationProps(cfg, state, meta), pathname, params);
            (c.Some? <==> meta.hasNextPage == Some(true)) &&
            (c.Some? ==>
               c.value.href == Some(Link(pathname, Assign(params, cfg.queryParamPage.value, Some(IntToString(state.page + 1))))))
    ensures var c := Previous(PaginationProps(cfg, state, meta), pathname, params);
            (c.Some? <==> state.page > 0) &&
            (c.Some? ==>
               c.value.href == Some(Link(pathname, Assign(params, cfg.queryParamPage.value, Some(IntToString(state.page - 1))))))
  {
  }

  /** Following the previous control's link in a bound grid moves it to the previous page. */
  lemma PreviousLinkGoesBack(cfg: Config, state: Paging, meta: Meta, pathname: string, params: Params)
    requires Truthy(cfg.queryParamPage) && '?' !in pathname
    requires state.page > 0
    requires LinkSafe(Assign(params, cfg.queryParamPage.value, Some(IntToString(state.page - 1))))
    ensures var c := Previous(PaginationProps(cfg, state, meta), pathname, params);
            c.Some? && c.value.href.Some? &&
            UrlChange(cfg, Parse(c.value.href.value[|pathname|..]), state).page == state.page - 1
  {
    FollowPageLink(cfg, state, pathname, params, state.page - 1,
                   Link(pathname, Assign(params, cfg.queryParamPage.value, Some(IntToString(state.page - 1)))));
    BoundControlLinks(cfg, state, meta, pathname, params);
  }

  /** Without URL binding the controls carry no link and a click moves the page by one, keeping the count. */
  lemma UnboundClicksMove(cfg: Config, state: Paging, meta: Meta, pathname: string, params: Params)
    requires !Truthy(cfg.queryParamPage)
    ensures var props := PaginationProps(cfg, state, meta);
            var next := Next(props, pathname, params);
            var prev := Previous(props, pathname, params);
            (next.Some? ==> next.value.href.None? &&
                            ChangePage(cfg, state, Click(props, next.value).value) == Paging(state.page + 1, state.countOnPage)) &&
            (prev.Some? ==> prev.value.href.None? &&
                            ChangePage(cfg, state, Click(props, prev.value).value) == Paging(state.page - 1, state.countOnPage))
  {
  }

  /**
   * Over an in-memory source, the next control is shown exactly when the
   * following page of the same query has records, and the previous one
   * exactly when the page is not the first.
   */
  lemma ControlsFollowTheData(cfg: Config, state: Paging, pathname: string, params: Params,
                              data: seq<Record>, filter: seq<FilterNode>, sorting: Option<seq<SortEntry>>)
    requires state.page >= 0 && state.countOnPage > 0
    ensures var loaded := Listing(Query(data, filter, Pagination(state.page, state.countOnPage), sorting));
            var props := PaginationProps(cfg, state, MetaOf(loaded));
            (Next(props, pathname, params).Some? <==>
               Query(data, filter, Pagination(state.page + 1, state.countOnPage), sorting).data != []) &&
            (Previous(props, pathname, params).Some? <==> state.page != 0)
  {
    var sorted := ApplySorts(Select(data, filter), sorting.GetOr([]));
    HasNextPageIffNextPageNonEmpty(sorted, Pagination(state.page, state.countOnPage));
  }
}
