/** The records exchanged between the scrape client and the server handlers. */
module Entities {
  import opened Wrappers
  import opened Records

  /**
   * One image of a lesson page: `{success: true, url, name, size}` or
   * `{success: false, error}`. A `size` of `None` is a `NaN` from `parseInt`.
   */
  datatype ImageDescriptor =
    | Fetched(url: string, name: string, size: Option<int>)
    | Failed(error: string)

  /** One entry of a group's `data`: a lesson title and its image descriptors. */
  datatype LessonItem = LessonItem(title: string, images: seq<ImageDescriptor>)

  /** The selection state of one group: its flag and a title -> selected record. */
  datatype GroupSelection = GroupSelection(selected: bool, items: Rec<bool>)
}
