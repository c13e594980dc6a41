/** The video descriptor both generators embed as `ALL_VIDEOS_DATA` and both
    client scripts read, and the display fields computed for it. */
module Descriptor {
  import opened Strings

  /** `toLocaleDateString('es-ES')` of the `upload_date`, or 'N/A' when the
      metadata has none. The locale formatting itself is not modelled. */
  datatype DisplayDate = NotAvailable | Localized(yyyymmdd: string)

  /** One entry of `ALL_VIDEOS_DATA`. `id` is emitted only by the channel
      generator; `fullDescription` is read by the search script. */
  datatype Video = Video(
    title: string,
    link: string,
    thumbnail: string,
    channel: string,
    description: string,
    date: DisplayDate,
    id: Common.Option<string>,
    fullDescription: Common.Option<string>)

  const NoDescription := "Sin descripción."
  const DescriptionLimit := 100

  /** `(description || 'Sin descripción.').substring(0, 100) + '...'`: the
      first 100 characters of the text, always followed by an ellipsis. */
  function ShortDescription(description: string): (r: string)
    ensures var full := Or(description, NoDescription);
      && |r| == (if |full| < DescriptionLimit then |full| else DescriptionLimit) + 3
      && r[..|r| - 3] == full[..|r| - 3]
      && r[|r| - 3..] == "..."
  {
    Take(Or(description, NoDescription), DescriptionLimit) + "..."
  }

  function DisplayDateOf(uploadDate: string): DisplayDate {
    if uploadDate == "" then NotAvailable else Localized(uploadDate)
  }
}
