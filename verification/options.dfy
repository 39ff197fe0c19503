/** The optional value used wherever the Java code keeps a nullable reference. */
module Options {

  /** `None` stands for a Java `null`. */
  datatype Option<+T> = None | Some(value: T)
}
