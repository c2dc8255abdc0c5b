/** Confluence pages as the live evidence reader knows them. */
module ConfluenceModel {
  import opened Wrappers

  type Text = string

  /** A page's metadata. */
  datatype Page = Page(
    id: Text, space: Text, title: Text, version: Text, status: Text, occurred: Option<Text>, dateKind: Option<Text>, dates: map<Text, Text>)

  /** What a handle stands for: a page and a place in it, with the section's text once released. */
  datatype Item = Item(page: Page, section: Section, offset: nat, text: Option<Text>)

  datatype Section = Inventory | Numbered(n: nat) | Continue(from: nat)

  datatype Error = InvalidRequest | InvalidOutput | Unauthorized | StaleAccessState | NotFound | Unavailable

  /** The spaces a reader is pinned to, if any. */
  type Scope = Option<set<Text>>

  predicate InScope(scope: Scope, page: Page) { scope.Some? ==> page.space in scope.value }

  /** samePage: every field the metadata has; dates by their canonical digest. */
  predicate SamePage(left: Page, right: Page) {
    left.id == right.id && left.space == right.space && left.version == right.version && left.title == right.title
    && left.status == right.status && left.occurred == right.occurred && left.dateKind == right.dateKind && left.dates == right.dates
  }

  /**
   * How one check of the connection goes: the requests it makes of its own, up
   * to two and none when it joins a check that is already queued, and whether
   * what comes back passes.
   */
  datatype Check = Check(cost: nat, passes: bool)

  /** The checks before and after one page read. */
  datatype Fence = Fence(before: Check, after: Check)

  /** All requests of an open between its checks: the read of the page is one more. */
  function Cost(fence: Fence): nat { fence.before.cost + 1 + fence.after.cost }

  predicate Passes(fence: Fence) { fence.before.passes && fence.after.passes }

  /** How far `to` is ahead of `from`. */
  function Gap(from: nat, to: nat): nat { if from < to then to - from else 0 }
}
