/** The two optional/fallible shapes the Rust code uses: `Option<T>` and
    `anyhow::Result<T>` (the error carried as its message). */
module Results {
  datatype Option<+T> = None | Some(value: T)

  datatype Result<+T> = Ok(value: T) | Err(error: string)
}
