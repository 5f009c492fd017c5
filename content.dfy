/**
 * The static records the site is built from: blog articles and the entries of
 * the product and service directory. They are supplied once and never changed.
 */
module Content {

  import opened Wrappers

  /** A blog article; `tags` may be missing. */
  datatype Article = Article(
    id: string,
    title: string,
    excerpt: string,
    image: string,
    date: string,
    author: string,
    tags: Option<seq<string>>,
    content: string)

  /** A product or service of the directory; prices are whole amounts. */
  datatype DirectoryItem = DirectoryItem(
    id: string,
    name: string,
    category: string,
    price: int,
    image: string,
    description: string,
    features: seq<string>,
    ctaLabel: string,
    url: string,
    details: string)
}
