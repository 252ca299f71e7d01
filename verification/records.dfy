/** Shapes shared by several screens: optional values (`undefined`/`null`),
    categories, and the emotion scores of an AI analysis. */
module Records {

  /** A value that may be absent (`undefined` or `null` on the page). */
  datatype Option<+T> = None | Some(value: T)

  /** A user-defined diary category, as the categories endpoint returns it. */
  datatype Category = Category(id: int, name: string)

  /** One entry of an analysis' emotion record (label to score). A record is
      kept as the list of its (name, score) entries in `Object.entries` order, which is the
      order the labels were inserted in. */
  datatype Emotion = Emotion(name: string, score: real)
}
