/** The navigation bar: three buttons that switch the current page, the
    dashboard one disabled and guarded while there is no emissions data. */
module Navigation {

  /** The values `currentPage` takes: 'home', 'upload' and 'dashboard'. */
  datatype Page = Home | Upload | Dashboard

  /** The guard of `handleNavigation`: going to the dashboard without data is
      refused. */
  predicate Refused(hasData: bool, page: Page) {
    page == Dashboard && !hasData
  }

  /** `handleNavigation`: the requested page, unless the guard refuses it, in
      which case the current page stays. */
  function HandleNavigation(current: Page, hasData: bool, page: Page): (next: Page)
    ensures Refused(hasData, page) ==> next == current
    ensures !Refused(hasData, page) ==> next == page
  {
    if page == Dashboard && !hasData then current else page
  }

  /** The `disabled` attribute of a navigation button: only the dashboard
      button, and only while there is no data. */
  predicate Disabled(button: Page, hasData: bool) {
    button == Dashboard && !hasData
  }

  /** A click on a navigation button: a disabled button fires nothing, an
      enabled one calls `handleNavigation` with its page. */
  function Click(current: Page, hasData: bool, button: Page): (next: Page)
    ensures Disabled(button, hasData) ==> next == current
  {
    if Disabled(button, hasData) then current else HandleNavigation(current, hasData, button)
  }

  /** The disabled attribute blocks exactly the clicks the guard would refuse,
      so a click does what `handleNavigation` alone would do. */
  lemma DisabledMatchesGuard(current: Page, hasData: bool, button: Page)
    ensures Disabled(button, hasData) <==> Refused(hasData, button)
    ensures Click(current, hasData, button) == HandleNavigation(current, hasData, button)
  {
  }

  /** Navigation never opens the dashboard without data: a click lands there
      only with data, or when it was already showing. */
  lemma NoDashboardWithoutData(current: Page, hasData: bool, button: Page)
    ensures Click(current, hasData, button) == Dashboard ==> hasData || current == Dashboard
  {
  }

  /** With data every button leads to its page; without data the home and
      upload buttons still do. */
  lemma ClickReachesButton(current: Page, hasData: bool, button: Page)
    ensures Click(current, hasData, button) == button <==> hasData || button != Dashboard || current == Dashboard
  {
  }
}
